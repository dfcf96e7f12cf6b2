/** Request arguments: what the host packs, and what a resumable unpacker makes of any part of it. */
module Arguments {
  import opened Common
  import opened LittleEndian

  /** A plain value of some size, a vector of plain elements of some size (a string has size 1), or a stream. */
  datatype ArgType = Pod(size: nat) | Vec(elem: nat) | Stream

  /** Values as bytes; a vector also with its element count, a stream only with the size it announces. */
  datatype Value = PodV(bytes: seq<byte>) | VecV(count: u64, bytes: seq<byte>) | StreamV(expected: u64)

  predicate Matches(t: ArgType, v: Value) {
    match t
    case Pod(n) => v.PodV? && |v.bytes| == n
    case Vec(e) => v.VecV? && |v.bytes| == e * v.count
    case Stream => v.StreamV?
  }

  predicate MatchesAll(schema: seq<ArgType>, vs: seq<Value>) {
    |vs| == |schema| && forall i :: 0 <= i < |vs| ==> Matches(schema[i], vs[i])
  }

  predicate HasStream(schema: seq<ArgType>) { schema != [] && schema[|schema| - 1].Stream? }

  function Size64(n: u64): seq<byte> { Bytes(n, 8) }

  function Pack(v: Value): seq<byte> {
    match v
    case PodV(bytes) => bytes
    case VecV(count, bytes) => Size64(count) + bytes
    case StreamV(expected) => Size64(expected)
  }

  function PackAll(vs: seq<Value>): seq<byte> {
    if vs == [] then [] else Pack(vs[0]) + PackAll(vs[1..])
  }

  /** On the wire a vector is its count, in eight bytes, and its elements; a stream is eight bytes that announce its size. */
  lemma PackText(v: Value)
    ensures v.PodV? ==> Pack(v) == v.bytes
    ensures v.VecV? ==> |Pack(v)| == 8 + |v.bytes| && LittleEndian.Value(Pack(v)[..8]) == v.count && Pack(v)[8..] == v.bytes
    ensures v.StreamV? ==> |Pack(v)| == 8 && LittleEndian.Value(Pack(v)) == v.expected
  {
    PowersKnown();
    if v.VecV? {
      FitsWidth(v.count, 8);
      assert Pack(v)[..8] == Size64(v.count);
    } else if v.StreamV? {
      FitsWidth(v.expected, 8);
    }
  }

  /** Argument `k` follows the arguments before it. */
  lemma {:induction false} PackedInOrder(vs: seq<Value>, k: nat)
    requires k < |vs|
    ensures PackAll(vs) == PackAll(vs[..k]) + Pack(vs[k]) + PackAll(vs[k + 1..])
  {
    if k > 0 {
      PackedInOrder(vs[1..], k - 1);
      assert vs[1..][..k - 1] == vs[1..k] && vs[..k][1..] == vs[1..k] && vs[1..][k..] == vs[k + 1..];
    }
  }

  // ---------------------------------------------------------------- the unpacker

  /** The values read so far, and the element count of the vector being read once that is known. */
  datatype Progress = Progress(values: seq<Value>, size: Option<u64>)

  datatype Part = Part(value: Option<Value>, size: Option<u64>, rest: seq<byte>)

  function ReadSize(s: seq<byte>): u64
    requires |s| >= 8
  {
    ValueBounded(s[..8]);
    PowersKnown();
    LittleEndian.Value(s[..8])
  }

  function UnpackElements(elem: nat, count: u64, s: seq<byte>): Part {
    if |s| < elem * count then Part(None, Some(count), s)
    else Part(Some(VecV(count, s[..elem * count])), None, s[elem * count..])
  }

  /** One argument; a size once read is consumed even if the elements are not there yet. */
  function UnpackArg(t: ArgType, size: Option<u64>, s: seq<byte>): Part {
    match t
    case Pod(n) => if |s| < n then Part(None, size, s) else Part(Some(PodV(s[..n])), None, s[n..])
    case Vec(e) =>
      if size.Some? then UnpackElements(e, size.value, s)
      else if |s| < 8 then Part(None, None, s)
      else UnpackElements(e, ReadSize(s), s[8..])
    case Stream => if |s| < 8 then Part(None, size, s) else Part(Some(StreamV(ReadSize(s))), None, s[8..])
  }

  datatype Unpacked = Unpacked(progress: Progress, rest: seq<byte>, done: bool)

  function Unpack(schema: seq<ArgType>, p: Progress, s: seq<byte>): (u: Unpacked)
    requires |p.values| <= |schema|
    ensures |u.progress.values| <= |schema| && |u.rest| <= |s|
    ensures u.done <==> |u.progress.values| == |schema|
    decreases |schema| - |p.values|
  {
    if |p.values| == |schema| then Unpacked(p, s, true)
    else
      var part := UnpackArg(schema[|p.values|], p.size, s);
      if part.value.None? then Unpacked(Progress(p.values, part.size), part.rest, false)
      else Unpack(schema, Progress(p.values + [part.value.value], None), part.rest)
  }

  const START := Progress([], None)

  lemma ElementsResume(elem: nat, count: u64, a: seq<byte>, b: seq<byte>)
    ensures var part := UnpackElements(elem, count, a);
            UnpackElements(elem, count, a + b) ==
            if part.value.Some? then part.(rest := part.rest + b) else UnpackElements(elem, count, part.rest + b)
  {
    var n := elem * count;
    if n <= |a| {
      assert (a + b)[..n] == a[..n] && (a + b)[n..] == a[n..] + b;
    }
  }

  lemma ArgResumes(t: ArgType, size: Option<u64>, a: seq<byte>, b: seq<byte>)
    ensures var part := UnpackArg(t, size, a);
            UnpackArg(t, size, a + b) ==
            if part.value.Some? then part.(rest := part.rest + b) else UnpackArg(t, part.size, part.rest + b)
  {
    match t {
      case Pod(n) =>
        if n <= |a| { assert (a + b)[..n] == a[..n] && (a + b)[n..] == a[n..] + b; }
      case Vec(e) =>
        if size.Some? {
          ElementsResume(e, size.value, a, b);
        } else if |a| >= 8 {
          assert (a + b)[..8] == a[..8] && (a + b)[8..] == a[8..] + b;
          ElementsResume(e, ReadSize(a), a[8..], b);
        }
      case Stream =>
        if |a| >= 8 { assert (a + b)[..8] == a[..8] && (a + b)[8..] == a[8..] + b; }
    }
  }

  /** Unpacking may stop anywhere for want of bytes and go on when more arrive. */
  lemma {:induction false} UnpackResumes(schema: seq<ArgType>, p: Progress, a: seq<byte>, b: seq<byte>)
    requires |p.values| <= |schema|
    ensures var u := Unpack(schema, p, a); Unpack(schema, p, a + b) == Unpack(schema, u.progress, u.rest + b)
    decreases |schema| - |p.values|
  {
    if |p.values| < |schema| {
      var t := schema[|p.values|];
      var part := UnpackArg(t, p.size, a);
      ArgResumes(t, p.size, a, b);
      if part.value.Some? {
        UnpackResumes(schema, Progress(p.values + [part.value.value], None), part.rest, b);
      } else {
        UnpackAgain(schema, p, a, b, part);
      }
    }
  }

  lemma UnpackAgain(schema: seq<ArgType>, p: Progress, a: seq<byte>, b: seq<byte>, part: Part)
    requires |p.values| < |schema|
    requires UnpackArg(schema[|p.values|], p.size, a + b) == UnpackArg(schema[|p.values|], part.size, part.rest + b)
    ensures Unpack(schema, p, a + b) == Unpack(schema, Progress(p.values, part.size), part.rest + b)
  {
  }

  // ---------------------------------------------------------------- unpacking what was packed

  lemma SizeRoundtrip(n: u64, rest: seq<byte>)
    ensures |Size64(n)| == 8 && ReadSize(Size64(n) + rest) == n && (Size64(n) + rest)[8..] == rest
  {
    assert (Size64(n) + rest)[..8] == Size64(n);
    PowersKnown();
    FitsWidth(n, 8);
  }

  lemma ArgRoundtrip(t: ArgType, v: Value, rest: seq<byte>)
    requires Matches(t, v)
    ensures UnpackArg(t, None, Pack(v) + rest) == Part(Some(v), None, rest)
  {
    match t {
      case Pod(n) =>
        assert (v.bytes + rest)[..n] == v.bytes && (v.bytes + rest)[n..] == rest;
      case Vec(e) =>
        SizeRoundtrip(v.count, v.bytes + rest);
        assert Pack(v) + rest == Size64(v.count) + (v.bytes + rest);
        var n := e * v.count;
        assert (v.bytes + rest)[..n] == v.bytes && (v.bytes + rest)[n..] == rest;
      case Stream =>
        SizeRoundtrip(v.expected, rest);
    }
  }

  lemma ArgSpells(t: ArgType, s: seq<byte>)
    requires UnpackArg(t, None, s).value.Some?
    ensures var part := UnpackArg(t, None, s); Matches(t, part.value.value) && s == Pack(part.value.value) + part.rest
  {
    match t {
      case Pod(n) => assert s == s[..n] + s[n..];
      case Vec(e) =>
        var count, rest := ReadSize(s), s[8..];
        var n := e * count;
        BytesOfValue(s[..8]);
        assert s == s[..8] + (rest[..n] + rest[n..]);
      case Stream =>
        BytesOfValue(s[..8]);
        assert s == s[..8] + s[8..];
    }
  }

  lemma MatchesCons(schema: seq<ArgType>, k: nat, v: Value, later: seq<Value>)
    requires k < |schema|
    ensures MatchesAll(schema[k..], [v] + later) <==> Matches(schema[k], v) && MatchesAll(schema[k + 1..], later)
  { }

  lemma PackCons(v: Value, later: seq<Value>, rest: seq<byte>)
    ensures PackAll([v] + later) + rest == Pack(v) + (PackAll(later) + rest)
  { }

  /** Unpacking the next argument and then the others. */
  lemma UnpackNext(schema: seq<ArgType>, p: Progress, v: Value, s: seq<byte>, rest: seq<byte>)
    requires |p.values| < |schema| && UnpackArg(schema[|p.values|], p.size, s) == Part(Some(v), None, rest)
    ensures Unpack(schema, p, s) == Unpack(schema, Progress(p.values + [v], None), rest)
  { }

  /** Packed values are unpacked, and what follows them is left. */
  lemma {:induction false} UnpackPacked(schema: seq<ArgType>, before: seq<Value>, vs: seq<Value>, rest: seq<byte>)
    requires |before| <= |schema| && MatchesAll(schema[|before|..], vs)
    ensures Unpack(schema, Progress(before, None), PackAll(vs) + rest) == Unpacked(Progress(before + vs, None), rest, true)
    decreases |vs|
  {
    if vs == [] {
      assert before + vs == before && PackAll(vs) + rest == rest;
    } else {
      var v, later := vs[0], vs[1..];
      assert vs == [v] + later && (before + [v]) + later == before + vs;
      MatchesCons(schema, |before|, v, later);
      PackCons(v, later, rest);
      ArgRoundtrip(schema[|before|], v, PackAll(later) + rest);
      UnpackNext(schema, Progress(before, None), v, PackAll(vs) + rest, PackAll(later) + rest);
      UnpackPacked(schema, before + [v], later, rest);
    }
  }

  /** Conversely, a finished unpacking has read exactly the packed form of its values. */
  lemma {:induction false} UnpackSpells(schema: seq<ArgType>, before: seq<Value>, s: seq<byte>) returns (vs: seq<Value>)
    requires |before| <= |schema| && Unpack(schema, Progress(before, None), s).done
    ensures Unpack(schema, Progress(before, None), s).progress == Progress(before + vs, None)
    ensures MatchesAll(schema[|before|..], vs)
    ensures s == PackAll(vs) + Unpack(schema, Progress(before, None), s).rest
    decreases |schema| - |before|
  {
    vs := [];
    if |before| == |schema| {
      assert before + vs == before && PackAll(vs) + s == s;
    } else {
      var part := UnpackArg(schema[|before|], None, s);
      var v := part.value.value;
      ArgSpells(schema[|before|], s);
      SizeAfter(schema[|before|], None, s);
      UnpackNext(schema, Progress(before, None), v, s, part.rest);
      var later := UnpackSpells(schema, before + [v], part.rest);
      vs := [v] + later;
      assert (before + [v]) + later == before + vs;
      PackCons(v, later, Unpack(schema, Progress(before, None), s).rest);
      MatchesCons(schema, |before|, v, later);
    }
  }

  lemma SizeAfter(t: ArgType, size: Option<u64>, s: seq<byte>)
    requires UnpackArg(t, size, s).value.Some?
    ensures UnpackArg(t, size, s).size == None
  { }

  /** A payload unpacks to `vs` with `rest` left exactly when it is `vs` packed, followed by `rest`. */
  lemma UnpackExactly(schema: seq<ArgType>, s: seq<byte>, vs: seq<Value>, rest: seq<byte>)
    ensures Unpack(schema, START, s) == Unpacked(Progress(vs, None), rest, true) <==>
            MatchesAll(schema, vs) && s == PackAll(vs) + rest
  {
    assert schema[0..] == schema;
    if MatchesAll(schema, vs) && s == PackAll(vs) + rest {
      UnpackPacked(schema, [], vs, rest);
      assert [] + vs == vs;
    }
    if Unpack(schema, START, s).done {
      var found := UnpackSpells(schema, [], s);
      assert [] + found == found;
    }
  }
}
