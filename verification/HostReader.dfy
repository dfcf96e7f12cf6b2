/** The host reading the out parameters of a call from the response payload, proved to do what `Responses` says. */
module HostReader {
  import opened Common
  import opened Buffers
  import opened LittleEndian
  import opened Responses

  /** What a read gives, seen as a value of the specification. */
  ghost function Outcome(r: Option<Data>, rest: seq<byte>): Read {
    if r.None? then Failed else Got(r.value, rest)
  }

  method ReadNumber(input: Buffer, w: nat) returns (n: Option<nat>)
    requires input.Valid()
    modifies input`readHead
    ensures input.Valid() && (n.Some? <==> |old(input.Contents())| >= w)
    ensures n.Some? ==> n.value == Number(old(input.Contents()), w) && input.Contents() == old(input.Contents())[w..]
  {
    var r := input.Read(w);
    n := if r.None? then None else Some(LittleEndian.Value(r.value));
  }

  method UnpackValue(t: Type, input: Buffer, objects: seq<u32>) returns (r: Option<Data>)
    requires input.Valid()
    modifies input`readHead
    ensures input.Valid()
    ensures Outcome(r, input.Contents()) == Unpack(t, old(input.Contents()), objects)
    decreases t, 0
  {
    match t {
      case TPlain(n) =>
        var bytes := input.Read(n);
        r := if bytes.None? then None else Some(Plain(bytes.value));
      case TVector(elem) =>
        r := UnpackVector(elem, input, objects);
      case TItems(item) =>
        var count := ReadNumber(input, 8);
        if count.None? { return None; }
        var items := UnpackElements(item, count.value, input, objects);
        r := if items.None? then None else Some(Items(items.value));
      case TObj =>
        var index := ReadNumber(input, 4);
        if index.None? { return None; }
        r := if index.value >= |objects| then None else Some(Obj(objects[index.value]));
    }
  }

  method UnpackVector(elem: nat, input: Buffer, objects: seq<u32>) returns (r: Option<Data>)
    requires input.Valid()
    modifies input`readHead
    ensures input.Valid()
    ensures Outcome(r, input.Contents()) == Unpack(TVector(elem), old(input.Contents()), objects)
  {
    var count := ReadNumber(input, 8);
    if count.None? { return None; }
    NumberFits(old(input.Contents()), 8);
    PowersKnown();
    var bytes := input.Read(elem * count.value);
    r := if bytes.None? then None else Some(Vector(count.value, bytes.value));
  }

  method UnpackElements(t: Type, n: nat, input: Buffer, objects: seq<u32>) returns (r: Option<seq<Data>>)
    requires input.Valid()
    modifies input`readHead
    ensures input.Valid()
    ensures var all := UnpackItems(t, n, old(input.Contents()), objects);
            if r.None? then all.AllFailed? else all == AllGot(r.value, input.Contents())
    decreases t, 1
  {
    var values := [];
    var i := 0;
    ghost var all := UnpackItems(t, n, input.Contents(), objects);
    while i < n
      invariant 0 <= i <= n && input.Valid()
      invariant Extends(values, UnpackItems(t, n - i, input.Contents(), objects)) == all
    {
      ghost var start := input.Contents();
      var v := UnpackValue(t, input, objects);
      if v.None? { return None; }
      ExtendsNext(values, t, n - i, start, objects);
      values := values + [v.value];
      i := i + 1;
    }
    assert values + [] == values;
    return Some(values);
  }

  ghost function Extends(values: seq<Data>, later: ReadAll): ReadAll {
    if later.AllFailed? then AllFailed else AllGot(values + later.values, later.rest)
  }

  lemma ExtendsNext(values: seq<Data>, t: Type, n: nat, s: seq<byte>, objects: seq<u32>)
    requires n > 0 && Unpack(t, s, objects).Got?
    ensures var r := Unpack(t, s, objects);
            Extends(values, UnpackItems(t, n, s, objects)) ==
            Extends(values + [r.value], UnpackItems(t, n - 1, r.rest, objects))
  { }

  /** All out parameters; reading stops at the first that fails. */
  method UnpackParameters(ts: seq<Type>, input: Buffer, objects: seq<u32>) returns (r: Option<seq<Data>>)
    requires input.Valid()
    modifies input`readHead
    ensures input.Valid()
    ensures var all := UnpackArgs(ts, old(input.Contents()), objects);
            if r.None? then all.AllFailed? else all == AllGot(r.value, input.Contents())
  {
    var values := [];
    var i := 0;
    ghost var all := UnpackArgs(ts, input.Contents(), objects);
    assert ts[0..] == ts;
    while i < |ts|
      invariant 0 <= i <= |ts| && input.Valid()
      invariant Extends(values, UnpackArgs(ts[i..], input.Contents(), objects)) == all
    {
      assert ts[i..][1..] == ts[i + 1..];
      ghost var start := input.Contents();
      var v := UnpackValue(ts[i], input, objects);
      if v.None? { return None; }
      ghost var later := UnpackArgs(ts[i + 1..], input.Contents(), objects);
      if later.AllGot? { Joins(values, [v.value], later.values); }
      values := values + [v.value];
      i := i + 1;
    }
    assert values + [] == values;
    return Some(values);
  }
}
