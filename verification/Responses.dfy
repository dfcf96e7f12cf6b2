/** Response values: their announced size and object count, the bytes and objects the device emits, and what the host reads. */
module Responses {
  import opened Common
  import opened LittleEndian

  /** A plain value, a vector of plain elements (also a string, a buffer or a serialised message), a vector of other
      values, or an object, which is sent out of band and named by its index. */
  datatype Data = Plain(bytes: seq<byte>) | Vector(count: u64, bytes: seq<byte>) | Items(items: seq<Data>) | Obj(id: u32)

  datatype Type = TPlain(size: nat) | TVector(elem: nat) | TItems(item: Type) | TObj

  predicate Has(t: Type, v: Data)
    decreases v
  {
    match t
    case TPlain(n) => v.Plain? && |v.bytes| == n
    case TVector(e) => v.Vector? && |v.bytes| == e * v.count
    case TItems(item) =>
      v.Items? && |v.items| < 0x1_0000_0000_0000_0000 && forall i :: 0 <= i < |v.items| ==> Has(item, v.items[i])
    case TObj => v.Obj?
  }

  // ---------------------------------------------------------------- what is announced

  function GetSize(v: Data): nat
    decreases v
  {
    match v
    case Plain(bytes) => |bytes|
    case Vector(_, bytes) => 8 + |bytes|
    case Items(items) => 8 + GetSizes(items)
    case Obj(_) => 4
  }

  function GetSizes(vs: seq<Data>): nat
    decreases vs
  {
    if vs == [] then 0 else GetSize(vs[0]) + GetSizes(vs[1..])
  }

  function GetObjectCount(v: Data): nat
    decreases v
  {
    match v
    case Items(items) => GetObjectCounts(items)
    case Obj(_) => 1
    case _ => 0
  }

  function GetObjectCounts(vs: seq<Data>): nat
    decreases vs
  {
    if vs == [] then 0 else GetObjectCount(vs[0]) + GetObjectCounts(vs[1..])
  }

  // ---------------------------------------------------------------- what is emitted

  /** The bytes sent and the objects collected so far. */
  datatype Emitted = Emitted(data: seq<byte>, objects: seq<u32>)

  /** An object's bytes are its index, as 32 bits. */
  function Pack(v: Data, w: Emitted): Emitted
    decreases v
  {
    match v
    case Plain(bytes) => w.(data := w.data + bytes)
    case Vector(count, bytes) => w.(data := w.data + Bytes(count, 8) + bytes)
    case Items(items) => PackAll(items, w.(data := w.data + Bytes(|items|, 8)))
    case Obj(id) => Emitted(w.data + Bytes(|w.objects|, 4), w.objects + [id])
  }

  function PackAll(vs: seq<Data>, w: Emitted): Emitted
    decreases vs
  {
    if vs == [] then w else PackAll(vs[1..], Pack(vs[0], w))
  }

  /** The objects of a value, in order. */
  function Objects(v: Data): seq<u32>
    decreases v
  {
    match v
    case Items(items) => ObjectsOfAll(items)
    case Obj(id) => [id]
    case _ => []
  }

  function ObjectsOfAll(vs: seq<Data>): seq<u32>
    decreases vs
  {
    if vs == [] then [] else Objects(vs[0]) + ObjectsOfAll(vs[1..])
  }

  /** The bytes of a value whose first object gets index `next`. */
  function Wire(v: Data, next: nat): seq<byte>
    decreases v
  {
    match v
    case Plain(bytes) => bytes
    case Vector(count, bytes) => Bytes(count, 8) + bytes
    case Items(items) => Bytes(|items|, 8) + WireAll(items, next)
    case Obj(_) => Bytes(next, 4)
  }

  function WireAll(vs: seq<Data>, next: nat): seq<byte>
    decreases vs
  {
    if vs == [] then [] else Wire(vs[0], next) + WireAll(vs[1..], next + |Objects(vs[0])|)
  }

  /** Packing emits exactly the announced bytes and objects, the objects in order and numbered one after the other. */
  lemma {:induction false} PackEmits(v: Data, w: Emitted)
    ensures Pack(v, w) == Emitted(w.data + Wire(v, |w.objects|), w.objects + Objects(v))
    ensures |Wire(v, |w.objects|)| == GetSize(v) && |Objects(v)| == GetObjectCount(v)
    decreases v
  {
    match v {
      case Items(items) =>
        var head := Bytes(|items|, 8);
        PackAllEmits(items, w.(data := w.data + head));
        assert (w.data + head) + WireAll(items, |w.objects|) == w.data + (head + WireAll(items, |w.objects|));
      case Vector(count, bytes) =>
        assert (w.data + Bytes(count, 8)) + bytes == w.data + (Bytes(count, 8) + bytes);
      case Plain(bytes) =>
        assert w.objects + [] == w.objects;
      case Obj(_) =>
    }
  }

  lemma {:induction false} PackAllEmits(vs: seq<Data>, w: Emitted)
    ensures PackAll(vs, w) == Emitted(w.data + WireAll(vs, |w.objects|), w.objects + ObjectsOfAll(vs))
    ensures |WireAll(vs, |w.objects|)| == GetSizes(vs) && |ObjectsOfAll(vs)| == GetObjectCounts(vs)
    decreases vs
  {
    if vs == [] {
      assert w.data + [] == w.data && w.objects + [] == w.objects;
    } else {
      var first := Pack(vs[0], w);
      PackEmits(vs[0], w);
      PackAllEmits(vs[1..], first);
      Joins(w.data, Wire(vs[0], |w.objects|), WireAll(vs[1..], |first.objects|));
      Joins(w.objects, Objects(vs[0]), ObjectsOfAll(vs[1..]));
    }
  }

  lemma Joins<T>(a: seq<T>, b: seq<T>, c: seq<T>)
    ensures (a + b) + c == a + (b + c)
  { }

  /**
   On the wire a vector is its count, in eight bytes, and its elements, and an object is its index, in four bytes: the number
   of objects before it.
   */
  lemma WireText(v: Data, next: nat)
    requires next < 0x1_0000_0000 && (v.Items? ==> |v.items| < 0x1_0000_0000_0000_0000)
    ensures v.Plain? ==> Wire(v, next) == v.bytes
    ensures v.Vector? ==>
              var s := Wire(v, next); |s| == 8 + |v.bytes| && LittleEndian.Value(s[..8]) == v.count && s[8..] == v.bytes
    ensures v.Items? ==>
              var s := Wire(v, next); |s| >= 8 && LittleEndian.Value(s[..8]) == |v.items| && s[8..] == WireAll(v.items, next)
    ensures v.Obj? ==> |Wire(v, next)| == 4 && LittleEndian.Value(Wire(v, next)) == next
  {
    PowersKnown();
    match v {
      case Plain(_) =>
      case Vector(count, bytes) =>
        FitsWidth(count, 8);
        assert Wire(v, next)[..8] == Bytes(count, 8);
      case Items(items) =>
        FitsWidth(|items|, 8);
        assert Wire(v, next)[..8] == Bytes(|items|, 8);
      case Obj(_) => FitsWidth(next, 4);
    }
  }

  /** Value `k` of a list follows those before it, and its objects are numbered after theirs. */
  lemma {:induction false} WireInOrder(vs: seq<Data>, next: nat, k: nat)
    requires k < |vs|
    ensures var mid := next + |ObjectsOfAll(vs[..k])|;
            WireAll(vs, next) == WireAll(vs[..k], next) + Wire(vs[k], mid) + WireAll(vs[k + 1..], mid + |Objects(vs[k])|)
  {
    if k > 0 {
      var after := next + |Objects(vs[0])|;
      WireInOrder(vs[1..], after, k - 1);
      assert vs[1..][..k - 1] == vs[1..k] && vs[..k][1..] == vs[1..k] && vs[1..][k..] == vs[k + 1..];
      assert vs[..k][0] == vs[0];
    }
  }

  // ---------------------------------------------------------------- what the host reads

  datatype Read = Failed | Got(value: Data, rest: seq<byte>)

  datatype ReadAll = AllFailed | AllGot(values: seq<Data>, rest: seq<byte>)

  function Number(s: seq<byte>, w: nat): nat
    requires |s| >= w
  {
    LittleEndian.Value(s[..w])
  }

  lemma NumberFits(s: seq<byte>, w: nat)
    requires |s| >= w
    ensures Number(s, w) < Power256(w)
  {
    ValueBounded(s[..w]);
  }

  function Unpack(t: Type, s: seq<byte>, objects: seq<u32>): Read
    decreases t, 0, 0
  {
    match t
    case TPlain(n) => if |s| < n then Failed else Got(Plain(s[..n]), s[n..])
    case TVector(e) =>
      if |s| < 8 then Failed
      else
        var count := Number(s, 8);
        NumberFits(s, 8);
        PowersKnown();
        var rest := s[8..];
        if |rest| < e * count then Failed else Got(Vector(count, rest[..e * count]), rest[e * count..])
    case TItems(item) =>
      if |s| < 8 then Failed
      else
        var r := UnpackItems(item, Number(s, 8), s[8..], objects);
        if r.AllFailed? then Failed else Got(Items(r.values), r.rest)
    case TObj =>
      if |s| < 4 then Failed
      else
        var index := Number(s, 4);
        if index >= |objects| then Failed else Got(Obj(objects[index]), s[4..])
  }

  function UnpackItems(t: Type, n: nat, s: seq<byte>, objects: seq<u32>): ReadAll
    decreases t, 1, n
  {
    if n == 0 then AllGot([], s)
    else
      var r := Unpack(t, s, objects);
      if r.Failed? then AllFailed
      else
        var later := UnpackItems(t, n - 1, r.rest, objects);
        if later.AllFailed? then AllFailed else AllGot([r.value] + later.values, later.rest)
  }

  /** The out parameters of a call, one after the other. */
  function UnpackArgs(ts: seq<Type>, s: seq<byte>, objects: seq<u32>): ReadAll {
    if ts == [] then AllGot([], s)
    else
      var r := Unpack(ts[0], s, objects);
      if r.Failed? then AllFailed
      else
        var later := UnpackArgs(ts[1..], r.rest, objects);
        if later.AllFailed? then AllFailed else AllGot([r.value] + later.values, later.rest)
  }

  /** What the host reads is of the type it asked for, and it has read exactly the bytes of that value. */
  lemma {:induction false} UnpackSound(t: Type, s: seq<byte>, objects: seq<u32>)
    requires Unpack(t, s, objects).Got?
    ensures var r := Unpack(t, s, objects);
            Has(t, r.value) && |s| == GetSize(r.value) + |r.rest| && s[GetSize(r.value)..] == r.rest
    decreases t, 0, 0
  {
    match t {
      case TPlain(_) =>
      case TVector(e) =>
        NumberFits(s, 8);
        PowersKnown();
        var n := e * Number(s, 8);
        assert s[8..][n..] == s[8 + n..];
      case TItems(item) =>
        NumberFits(s, 8);
        PowersKnown();
        UnpackItemsSound(item, Number(s, 8), s[8..], objects);
        var r := UnpackItems(item, Number(s, 8), s[8..], objects);
        assert s[8..][GetSizes(r.values)..] == s[8 + GetSizes(r.values)..];
      case TObj =>
    }
  }

  lemma {:induction false} UnpackItemsSound(t: Type, n: nat, s: seq<byte>, objects: seq<u32>)
    requires UnpackItems(t, n, s, objects).AllGot?
    ensures var r := UnpackItems(t, n, s, objects);
            && |r.values| == n && (forall i :: 0 <= i < n ==> Has(t, r.values[i]))
            && |s| == GetSizes(r.values) + |r.rest| && s[GetSizes(r.values)..] == r.rest
    decreases t, 1, n
  {
    if n > 0 {
      var r := Unpack(t, s, objects);
      UnpackSound(t, s, objects);
      UnpackItemsSound(t, n - 1, r.rest, objects);
      var later := UnpackItems(t, n - 1, r.rest, objects);
      var all := [r.value] + later.values;
      assert all[1..] == later.values && all[0] == r.value;
      assert s[GetSize(r.value)..][GetSizes(later.values)..] == s[GetSize(r.value) + GetSizes(later.values)..];
    }
  }

  /** An object is read exactly when its index is that of an object that came with the response. */
  lemma ObjectReads(s: seq<byte>, objects: seq<u32>)
    ensures Unpack(TObj, s, objects).Got? <==> |s| >= 4 && LittleEndian.Value(s[..4]) < |objects|
    ensures var r := Unpack(TObj, s, objects); r.Got? ==> r.value == Obj(objects[LittleEndian.Value(s[..4])])
  { }

  /** From index `next` on, `objects` lists the objects `own`. */
  ghost predicate Lists(objects: seq<u32>, next: nat, own: seq<u32>) {
    next + |own| <= |objects| && objects[next..next + |own|] == own
  }

  lemma ListsSplit(objects: seq<u32>, next: nat, a: seq<u32>, b: seq<u32>)
    requires Lists(objects, next, a + b)
    ensures Lists(objects, next, a) && Lists(objects, next + |a|, b)
  {
    var part := objects[next..next + |a + b|];
    var first, second := objects[next..next + |a|], objects[next + |a|..next + |a| + |b|];
    forall k | 0 <= k < |a| ensures first[k] == a[k] {
      assert first[k] == part[k] == (a + b)[k];
    }
    forall k | 0 <= k < |b| ensures second[k] == b[k] {
      assert second[k] == part[|a| + k] == (a + b)[|a| + k];
    }
  }

  lemma NumberRoundtrip(n: nat, w: nat, rest: seq<byte>)
    requires n < Power256(w)
    ensures |Bytes(n, w) + rest| >= w && Number(Bytes(n, w) + rest, w) == n && (Bytes(n, w) + rest)[w..] == rest
  {
    assert (Bytes(n, w) + rest)[..w] == Bytes(n, w);
    FitsWidth(n, w);
  }

  lemma OwnFirst(objects: seq<u32>, next: nat, id: u32)
    requires Lists(objects, next, [id])
    ensures next < |objects| && objects[next] == id
  {
    assert objects[next] == objects[next..next + |[id]|][0];
  }

  /** The host reads back the value that was packed, with its objects. */
  lemma {:induction false} UnpackWire(t: Type, v: Data, next: nat, rest: seq<byte>, objects: seq<u32>)
    requires Has(t, v) && Lists(objects, next, Objects(v)) && |objects| <= 0x1_0000_0000
    ensures Unpack(t, Wire(v, next) + rest, objects) == Got(v, rest)
    decreases v, 0
  {
    PowersKnown();
    match t {
      case TPlain(n) =>
        assert (v.bytes + rest)[..n] == v.bytes && (v.bytes + rest)[n..] == rest;
      case TVector(e) =>
        NumberRoundtrip(v.count, 8, v.bytes + rest);
        Joins(Bytes(v.count, 8), v.bytes, rest);
        var n := e * v.count;
        assert (v.bytes + rest)[..n] == v.bytes && (v.bytes + rest)[n..] == rest;
      case TItems(item) =>
        NumberRoundtrip(|v.items|, 8, WireAll(v.items, next) + rest);
        Joins(Bytes(|v.items|, 8), WireAll(v.items, next), rest);
        UnpackWireItems(item, v.items, next, rest, objects);
      case TObj =>
        NumberRoundtrip(next, 4, rest);
        OwnFirst(objects, next, v.id);
    }
  }

  lemma {:induction false} UnpackWireItems(t: Type, vs: seq<Data>, next: nat, rest: seq<byte>, objects: seq<u32>)
    requires forall i :: 0 <= i < |vs| ==> Has(t, vs[i])
    requires Lists(objects, next, ObjectsOfAll(vs)) && |objects| <= 0x1_0000_0000
    ensures UnpackItems(t, |vs|, WireAll(vs, next) + rest, objects) == AllGot(vs, rest)
    decreases vs, 1
  {
    if vs == [] {
      assert WireAll(vs, next) + rest == rest;
    } else {
      var after := next + |Objects(vs[0])|;
      ListsSplit(objects, next, Objects(vs[0]), ObjectsOfAll(vs[1..]));
      Joins(Wire(vs[0], next), WireAll(vs[1..], after), rest);
      UnpackWire(t, vs[0], next, WireAll(vs[1..], after) + rest, objects);
      UnpackWireItems(t, vs[1..], after, rest, objects);
      var s := Wire(vs[0], next) + (WireAll(vs[1..], after) + rest);
      assert WireAll(vs, next) + rest == s;
      ItemsCons(t, |vs|, s, objects, vs[0], WireAll(vs[1..], after) + rest, vs[1..], rest);
      assert [vs[0]] + vs[1..] == vs;
    }
  }

  lemma ItemsCons(t: Type, n: nat, s: seq<byte>, objects: seq<u32>, v: Data, mid: seq<byte>, later: seq<Data>, rest: seq<byte>)
    requires n > 0 && Unpack(t, s, objects) == Got(v, mid) && UnpackItems(t, n - 1, mid, objects) == AllGot(later, rest)
    ensures UnpackItems(t, n, s, objects) == AllGot([v] + later, rest)
  { }

  predicate HasAll(ts: seq<Type>, vs: seq<Data>) {
    |ts| == |vs| && forall i :: 0 <= i < |vs| ==> Has(ts[i], vs[i])
  }

  lemma {:induction false} UnpackWireArgs(ts: seq<Type>, vs: seq<Data>, next: nat, rest: seq<byte>, objects: seq<u32>)
    requires HasAll(ts, vs) && Lists(objects, next, ObjectsOfAll(vs)) && |objects| <= 0x1_0000_0000
    ensures UnpackArgs(ts, WireAll(vs, next) + rest, objects) == AllGot(vs, rest)
  {
    if vs == [] {
      assert WireAll(vs, next) + rest == rest;
    } else {
      var after := next + |Objects(vs[0])|;
      ListsSplit(objects, next, Objects(vs[0]), ObjectsOfAll(vs[1..]));
      Joins(Wire(vs[0], next), WireAll(vs[1..], after), rest);
      UnpackWire(ts[0], vs[0], next, WireAll(vs[1..], after) + rest, objects);
      UnpackWireArgs(ts[1..], vs[1..], after, rest, objects);
      assert [vs[0]] + vs[1..] == vs;
    }
  }

  /**
   A whole response: exactly the announced number of bytes and objects is emitted, and the host reads from them the
   values and objects that were sent.
   */
  lemma ResponseRoundtrip(ts: seq<Type>, vs: seq<Data>)
    requires HasAll(ts, vs) && GetObjectCounts(vs) <= 0x1_0000_0000
    ensures var e := PackAll(vs, Emitted([], []));
            |e.data| == GetSizes(vs) && |e.objects| == GetObjectCounts(vs) && e.objects == ObjectsOfAll(vs) &&
            UnpackArgs(ts, e.data, e.objects) == AllGot(vs, [])
  {
    var objects := ObjectsOfAll(vs);
    PackAllEmits(vs, Emitted([], []));
    assert [] + objects == objects && [] + WireAll(vs, 0) == WireAll(vs, 0);
    assert objects[0..0 + |objects|] == objects && WireAll(vs, 0) + [] == WireAll(vs, 0);
    UnpackWireArgs(ts, vs, 0, [], objects);
  }
}
