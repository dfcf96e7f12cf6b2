/**
 The circular block index of an implicit producer, as an interleaving of atomic steps.

 The producer inserts, rewinds and doubles the index; any number of consumers look blocks up and
 clear the entries of blocks they emptied. Blocks are numbered 0, 1, 2, ... in the order they are
 started; block `b` holds the elements `32 b` to `32 b + 31` and its key is the word of `32 b`.
 */
module BlockIndex {
  import opened Common
  import opened Circular
  import opened ModArith
  import opened FiniteSets

  const BLOCK_SIZE := 32
  const INVALID_BLOCK_BASE: word := 1
  const INITIAL_EXPONENT: nat := 5
  const MAX_EXPONENT: nat := 59

  /** The key of a block, a word that wraps. */
  function Base(b: int): word { Word(b * BLOCK_SIZE) }

  /** `value` is the block the entry points to, by number; the value of a fresh entry is not initialised. */
  datatype Entry = Entry(key: word, value: Option<int>)

  /**
   One generation of the index: its slots point to shared entries. `num` and `shift` are history:
   the block number at `tail`, and the rotation that takes block numbers to slots.
   */
  datatype Header = Header(exp: nat, index: seq<int>, tail: int, num: int, shift: int)

  datatype Producer =
    | PIdle
    | PFind
    | PGrow
    | PKey(e: int)
    | PTail(e: int)
    | PBlock(e: int)
    | PValue(e: int)
    | PRewind(e: int)
    | PNull(e: int)
    | PConstruct

  /** A consumer holding element `i`; `q` is history: the block number at the tail it read. */
  datatype Pc =
    | Idle
    | LoadHeader(i: int)
    | LoadTail(i: int, v: nat)
    | LoadKey(i: int, v: nat, t: int, q: int)
    | Locate(i: int, v: nat, t: int, q: int, key: word)
    | Use(i: int, e: int)
    | SetEmpty(i: int, e: int, block: int)
    | Clear(b: int, e: int)

  /**
   `generations` are the block indices allocated so far, the last one current. `live` are the blocks
   whose entry value is set; `counters` are their completely-dequeued counts.
   */
  datatype State = State(
    generations: seq<Header>, entries: seq<Entry>, producer: Producer, tailIndex: int,
    taken: set<int>, done: set<int>, live: set<int>, counters: map<int, int>, pcs: seq<Pc>)

  function Capacity(h: Header): int { Pow2(h.exp) }

  ghost predicate HeaderOk(h: Header, entries: nat) {
    && INITIAL_EXPONENT <= h.exp <= MAX_EXPONENT
    && |h.index| == Capacity(h)
    && h.tail == (h.num + h.shift) % Capacity(h)
    && (forall j :: 0 <= j < |h.index| ==> 0 <= h.index[j] < entries)
  }

  ghost function Current(s: State): Header
    requires s.generations != []
  {
    s.generations[|s.generations| - 1]
  }

  /** The entry the slot of block number `c` points to. */
  ghost function EntryAt(h: Header, c: int): int
    requires |h.index| == Capacity(h)
  {
    h.index[(c + h.shift) % Capacity(h)]
  }

  // ---- the address computation ----

  /** The distance in blocks from the tail's key to an index; the division is of unsigned words. */
  function Offset(tailKey: word, i: int): int { Sub(Word(i) - Word(i) % BLOCK_SIZE, tailKey) / BLOCK_SIZE }

  /** `get_block_index_index_for_index`, after its three loads. */
  function LookupSlot(tail: int, tailKey: word, i: int, capacity: int): int
    requires capacity > 0
  {
    (tail + Offset(tailKey, i)) % capacity
  }

  lemma MaskedIndexIsBase(i: int)
    ensures Word(i) - Word(i) % BLOCK_SIZE == Base(i / BLOCK_SIZE)
  {
    assert i == i / BLOCK_SIZE * BLOCK_SIZE + i % BLOCK_SIZE;
    assert WORD == BLOCK_SIZE * 0x800_0000_0000_0000;
  }

  /** How many blocks a word can count. */
  const BLOCKS: int := 0x800_0000_0000_0000

  lemma BaseDistance(b: int, q: int)
    ensures Sub(Base(b), Base(q)) / BLOCK_SIZE == (b - q) % BLOCKS
  {
    WordSub(b * BLOCK_SIZE, q * BLOCK_SIZE);
    assert b * BLOCK_SIZE - q * BLOCK_SIZE == (b - q) * BLOCK_SIZE;
    assert WORD == BLOCK_SIZE * BLOCKS;
    var x := b - q;
    assert x * BLOCK_SIZE == (x / BLOCKS) * WORD + x % BLOCKS * BLOCK_SIZE;
  }

  /** The distance is taken modulo the number of blocks a word can count. */
  lemma OffsetIs(i: int, q: int)
    ensures Offset(Base(q), i) == (i / BLOCK_SIZE - q) % BLOCKS
  {
    MaskedIndexIsBase(i);
    BaseDistance(i / BLOCK_SIZE, q);
  }

  /** The slot is right for every capacity that divides the number of blocks a word can count. */
  lemma SlotExact(i: int, q: int, shift: int, k: int, m: int)
    requires k > 0 && m > 0 && k * m == BLOCKS
    ensures LookupSlot((q + shift) % m, Base(q), i, m) == (i / BLOCK_SIZE + shift) % m
  {
    OffsetIs(i, q);
    ModSum(q + shift, i / BLOCK_SIZE - q, i / BLOCK_SIZE + shift, Offset(Base(q), i), k, m);
  }

  /** From the tail slot and its key, words that may have wrapped, the slot of any block is found. */
  lemma LookupSlotExact(i: int, q: int, h: Header)
    requires h.exp <= MAX_EXPONENT
    ensures LookupSlot((q + h.shift) % Capacity(h), Base(q), i, Capacity(h)) == (i / BLOCK_SIZE + h.shift) % Capacity(h)
  {
    Pow2Splits(h.exp, MAX_EXPONENT);
    Pow2Known();
    SlotExact(i, q, h.shift, Pow2(MAX_EXPONENT - h.exp), Capacity(h));
  }

  /** `new_block_index`: the old slots in order from the one after the tail, then as many fresh entries. */
  ghost function Doubled(h: Header, firstNew: int): Header
    requires |h.index| == Capacity(h)
  {
    var cap := Capacity(h);
    Header(h.exp + 1, Rotated(h.index, h.tail) + seq(cap, j => firstNew + j), cap - 1, h.num, cap - 1 - h.num)
  }

  function Rotated(index: seq<int>, tail: int): (r: seq<int>)
    ensures |r| == |index|
  {
    seq(|index|, j requires 0 <= j < |index| => index[(tail + 1 + j) % |index|])
  }

  /** The copying loop of `new_block_index`, from the slot after the tail round to the tail itself. */
  method CopySlots(index: seq<int>, tail: int) returns (copied: seq<int>)
    requires 0 <= tail < |index|
    ensures copied == Rotated(index, tail)
  {
    copied := [];
    var pos := tail;
    while true
      invariant 0 <= |copied| <= |index| && pos == (tail + |copied|) % |index|
      invariant copied == Rotated(index, tail)[..|copied|]
      invariant |copied| < |index|
      decreases |index| - |copied|
    {
      ModAdd(tail + |copied|, 1, |index|);
      pos := (pos + 1) % |index|;
      copied := copied + [index[pos]];
      if pos == tail {
        ModShift(tail, 1, |index|);
        ModInjective(tail + |copied|, tail + |index|, |index|);
        return;
      }
      if |copied| == |index| { ModShift(tail, 1, |index|); }
    }
  }

  ghost predicate ProducerReady(s: State) {
    && s.generations != []
    && HeaderOk(Current(s), |s.entries|)
    && (match s.producer
        case PKey(e) => 0 <= e < |s.entries|
        case PValue(e) => 0 <= e < |s.entries|
        case PNull(e) => 0 <= e < |s.entries|
        case _ => true)
  }

  ghost function WithCurrent(s: State, h: Header): seq<Header>
    requires s.generations != []
  {
    s.generations[|s.generations| - 1 := h]
  }

  /** The next atomic step of the enqueueing thread; `ok` is whether an allocation succeeds. */
  ghost function ProducerStep(s: State, ok: bool, junk: int -> Option<int>): State
    requires ProducerReady(s)
  {
    var h := Current(s);
    match s.producer
    case PIdle =>
      s.(producer := if s.tailIndex % BLOCK_SIZE == 0 then PFind else PConstruct)
    case PFind =>
      var e := h.index[(h.tail + 1) % Capacity(h)];
      s.(producer := if s.entries[e].key == INVALID_BLOCK_BASE || s.entries[e].value.None? then PKey(e) else PGrow)
    case PGrow =>
      if ok && h.exp < MAX_EXPONENT then
        var added := seq(Capacity(h), j => Entry(INVALID_BLOCK_BASE, junk(j)));
        var h' := Doubled(h, |s.entries|);
        s.(entries := s.entries + added, generations := s.generations + [h'],
           producer := PKey(h'.index[(h'.tail + 1) % |h'.index|]))
      else s.(producer := PIdle)
    case PKey(e) =>
      s.(entries := s.entries[e := s.entries[e].(key := Word(s.tailIndex))], producer := PTail(e))
    case PTail(e) =>
      s.(generations := WithCurrent(s, h.(tail := (h.tail + 1) % Capacity(h), num := h.num + 1)), producer := PBlock(e))
    case PBlock(e) =>
      s.(producer := if ok then PValue(e) else PRewind(e))
    case PValue(e) =>
      s.(entries := s.entries[e := s.entries[e].(value := Some(h.num))], live := s.live + {h.num},
         counters := s.counters[h.num := 0], producer := PConstruct)
    case PRewind(e) =>
      s.(generations := WithCurrent(s, h.(tail := (h.tail - 1) % Capacity(h), num := h.num - 1)), producer := PNull(e))
    case PNull(e) =>
      s.(entries := s.entries[e := s.entries[e].(value := None)], producer := PIdle)
    case PConstruct =>
      s.(tailIndex := s.tailIndex + 1, producer := PIdle)
  }

  ghost predicate ConsumerReady(s: State, t: nat) {
    && t < |s.pcs| && s.generations != []
    && match s.pcs[t]
       case LoadTail(_, v) => v < |s.generations|
       case LoadKey(_, v, slot, _) =>
         v < |s.generations| && 0 <= slot < |s.generations[v].index| && 0 <= s.generations[v].index[slot] < |s.entries|
       case Locate(_, v, _, _, _) => v < |s.generations| && |s.generations[v].index| == Capacity(s.generations[v])
       case Use(_, e) => 0 <= e < |s.entries| && s.entries[e].value.Some?
       case SetEmpty(_, _, b) => b in s.counters
       case Clear(_, e) => 0 <= e < |s.entries|
       case _ => true
  }

  /** The next atomic step of consumer `t`; `i` is the index it won from the counters when idle. */
  ghost function ConsumerStep(s: State, t: nat, i: int): State
    requires ConsumerReady(s, t)
  {
    match s.pcs[t]
    case Idle =>
      if 0 <= i < s.tailIndex && i !in s.taken then s.(taken := s.taken + {i}, pcs := s.pcs[t := LoadHeader(i)]) else s
    case LoadHeader(x) =>
      s.(pcs := s.pcs[t := LoadTail(x, |s.generations| - 1)])
    case LoadTail(x, v) =>
      s.(pcs := s.pcs[t := LoadKey(x, v, s.generations[v].tail, s.generations[v].num)])
    case LoadKey(x, v, slot, q) =>
      s.(pcs := s.pcs[t := Locate(x, v, slot, q, s.entries[s.generations[v].index[slot]].key)])
    case Locate(x, v, slot, q, key) =>
      var h := s.generations[v];
      s.(pcs := s.pcs[t := Use(x, h.index[LookupSlot(slot, key, x, Capacity(h))])])
    case Use(x, e) =>
      s.(pcs := s.pcs[t := SetEmpty(x, e, s.entries[e].value.value)])
    case SetEmpty(x, e, b) =>
      s.(done := s.done + {x}, counters := s.counters[b := s.counters[b] + 1],
         pcs := s.pcs[t := if s.counters[b] == BLOCK_SIZE - 1 then Clear(b, e) else Idle])
    case Clear(b, e) =>
      s.(entries := s.entries[e := s.entries[e].(value := None)], live := s.live - {b}, pcs := s.pcs[t := Idle])
  }

  // ---- the invariant ----

  ghost function DoneIn(done: set<int>, b: int): set<int> {
    set j | j in done && j / BLOCK_SIZE == b
  }

  ghost predicate AllDone(done: set<int>, b: int) {
    forall j :: b * BLOCK_SIZE <= j < b * BLOCK_SIZE + BLOCK_SIZE ==> j in done
  }

  ghost predicate Distinct(h: Header) {
    forall i, j :: 0 <= i < j < |h.index| ==> h.index[i] != h.index[j]
  }

  /** Every live block is within the ring, its entry points to it, and the keys from it to the tail are right. */
  ghost predicate LiveOk(s: State, b: int)
    requires s.generations != [] && HeaderOk(Current(s), |s.entries|)
  {
    var h := Current(s);
    && 0 <= b <= h.num && h.num - b < Capacity(h)
    && s.entries[EntryAt(h, b)].value == Some(b)
    && (forall c :: b <= c <= h.num ==> s.entries[EntryAt(h, c)].key == Base(c))
    && b in s.counters && s.counters[b] == |DoneIn(s.done, b)|
  }

  /** There is room after the tail: the next slot belongs to no live block. */
  ghost predicate Room(s: State)
    requires s.generations != []
  {
    forall b :: b in s.live ==> Current(s).num + 1 - b < Capacity(Current(s))
  }

  ghost predicate Starting(s: State)
    requires s.generations != []
  {
    s.tailIndex % BLOCK_SIZE == 0 && Current(s).num + 1 == s.tailIndex / BLOCK_SIZE
  }

  ghost predicate Started(s: State)
    requires s.generations != []
  {
    s.tailIndex % BLOCK_SIZE == 0 && Current(s).num == s.tailIndex / BLOCK_SIZE
  }

  ghost predicate ProducerOk(s: State)
    requires s.generations != [] && HeaderOk(Current(s), |s.entries|)
  {
    var h := Current(s);
    match s.producer
    case PIdle => if s.tailIndex % BLOCK_SIZE == 0 then Starting(s) else h.num == s.tailIndex / BLOCK_SIZE
    case PFind => Starting(s)
    case PGrow => Starting(s)
    case PKey(e) => Starting(s) && Room(s) && e == EntryAt(h, h.num + 1)
    case PTail(e) => Starting(s) && Room(s) && e == EntryAt(h, h.num + 1) && s.entries[e].key == Base(h.num + 1)
    case PBlock(e) => Fresh(s, e)
    case PValue(e) => Fresh(s, e)
    case PRewind(e) => Fresh(s, e)
    case PNull(e) => Starting(s) && Room(s) && e == EntryAt(h, h.num + 1)
    case PConstruct => h.num == s.tailIndex / BLOCK_SIZE && h.num in s.live
  }

  /** The block at the tail has its key and place but is not yet live. */
  ghost predicate Fresh(s: State, e: int)
    requires s.generations != [] && HeaderOk(Current(s), |s.entries|)
  {
    var h := Current(s);
    && Started(s) && e == EntryAt(h, h.num) && s.entries[e].key == Base(h.num)
    && (forall b :: b in s.live ==> b < h.num)
    && (forall v :: 0 <= v < |s.generations| - 1 ==> s.generations[v].num < h.num)
  }

  ghost predicate Holding(s: State, i: int) {
    0 <= i < s.tailIndex && i in s.taken && i !in s.done
  }

  ghost predicate AllHeadersOk(s: State) {
    && s.generations != []
    && (forall v :: 0 <= v < |s.generations| ==> HeaderOk(s.generations[v], |s.entries|))
    && (forall v :: 0 <= v < |s.generations| ==> s.generations[v].num <= Current(s).num && s.generations[v].exp <= Current(s).exp)
    && Distinct(Current(s))
  }

  /** Generation `v` and the current one point to the same entries for blocks `b` to `q`. */
  ghost predicate Window(s: State, v: nat, b: int, q: int)
    requires AllHeadersOk(s) && v < |s.generations|
  {
    && b <= q && q - b < Capacity(s.generations[v])
    && (forall c :: b <= c <= q ==> EntryAt(s.generations[v], c) == EntryAt(Current(s), c))
  }

  /** The key at a tail read earlier is still that block's key, even if the tail was rewound since. */
  ghost predicate Keyed(s: State, q: int)
    requires AllHeadersOk(s)
  {
    && q <= Current(s).num + 1
    && s.entries[EntryAt(Current(s), q)].key == Base(q)
    && (q == Current(s).num + 1 ==>
         Starting(s) && !s.producer.PGrow? && (s.producer.PNull? || s.entries[EntryAt(Current(s), q)].value.None?))
  }

  ghost predicate ThreadOk(s: State, p: Pc)
    requires AllHeadersOk(s)
  {
    match p
    case Idle => true
    case LoadHeader(i) => Holding(s, i)
    case LoadTail(i, v) => Holding(s, i) && v < |s.generations| && Window(s, v, i / BLOCK_SIZE, s.generations[v].num)
    case LoadKey(i, v, t, q) =>
      && Holding(s, i) && v < |s.generations| && Window(s, v, i / BLOCK_SIZE, q) && Keyed(s, q)
      && t == (q + s.generations[v].shift) % Capacity(s.generations[v])
    case Locate(i, v, t, q, key) =>
      && Holding(s, i) && v < |s.generations| && Window(s, v, i / BLOCK_SIZE, q) && Keyed(s, q)
      && t == (q + s.generations[v].shift) % Capacity(s.generations[v]) && key == Base(q)
    case Use(i, e) => Holding(s, i) && e == EntryAt(Current(s), i / BLOCK_SIZE)
    case SetEmpty(i, e, b) => Holding(s, i) && b == i / BLOCK_SIZE && e == EntryAt(Current(s), b)
    case Clear(b, e) => b in s.live && AllDone(s.done, b) && e == EntryAt(Current(s), b)
  }

  ghost function Held(p: Pc): Option<int> {
    match p
    case Idle => None
    case Clear(_, _) => None
    case _ => Some(p.i)
  }

  ghost predicate Apart(p: Pc, q: Pc) {
    && (Held(p).Some? ==> Held(p) != Held(q))
    && (p.Clear? && q.Clear? ==> p.b != q.b)
  }

  ghost predicate Inv(s: State) {
    && AllHeadersOk(s)
    && ProducerOk(s)
    && 0 <= s.tailIndex
    && s.done <= s.taken && (forall i :: i in s.done ==> 0 <= i < s.tailIndex)
    && AllLive(s)
    && UnfinishedLive(s)
    && ThreadsOk(s)
    && AllApart(s.pcs)
  }

  ghost predicate AllLive(s: State)
    requires AllHeadersOk(s)
  {
    forall b :: b in s.live ==> LiveOk(s, b)
  }

  ghost predicate ThreadsOk(s: State)
    requires AllHeadersOk(s)
  {
    forall t :: 0 <= t < |s.pcs| ==> ThreadOk(s, s.pcs[t])
  }

  /** A block that has been started and still has an unfinished element is live. */
  ghost predicate UnfinishedLive(s: State) {
    forall j :: 0 <= j && j / BLOCK_SIZE * BLOCK_SIZE < s.tailIndex && j !in s.done ==> j / BLOCK_SIZE in s.live
  }

  ghost predicate AllApart(pcs: seq<Pc>) {
    forall t, u :: 0 <= t < u < |pcs| ==> Apart(pcs[t], pcs[u])
  }

  // ---- slots ----

  /** Blocks less than the capacity apart have different entries. */
  lemma EntriesDiffer(h: Header, c: int, d: int)
    requires |h.index| == Capacity(h) && Distinct(h)
    requires c != d && -Capacity(h) < c - d < Capacity(h)
    ensures EntryAt(h, c) != EntryAt(h, d)
  {
    var i := (c + h.shift) % Capacity(h);
    var j := (d + h.shift) % Capacity(h);
    if i == j { ModInjective(c + h.shift, d + h.shift, Capacity(h)); }
    assert i < j || j < i;
  }

  lemma CapacityAtLeast(h: Header, n: nat)
    requires HeaderOk(h, n)
    ensures Capacity(h) >= 32
  {
    Pow2Splits(INITIAL_EXPONENT, h.exp);
    Pow2Known();
    MulAtLeast(Pow2(h.exp - INITIAL_EXPONENT), 32);
  }

  /** Moving the tail by one moves its block number by one. */
  lemma TailMoves(h: Header, n: nat)
    requires HeaderOk(h, n)
    ensures (h.tail + 1) % Capacity(h) == (h.num + 1 + h.shift) % Capacity(h)
    ensures (h.tail - 1) % Capacity(h) == (h.num - 1 + h.shift) % Capacity(h)
  {
    ModAdd(h.num + h.shift, 1, Capacity(h));
    ModAdd(h.num + h.shift, -1, Capacity(h));
  }

  /** After doubling, every block of the old ring is found at its own entry. */
  lemma DoubledKeepsEntry(h: Header, firstNew: nat, c: int)
    requires HeaderOk(h, firstNew) && h.exp < MAX_EXPONENT
    requires h.num - Capacity(h) < c <= h.num
    ensures |Doubled(h, firstNew).index| == Capacity(Doubled(h, firstNew))
    ensures EntryAt(Doubled(h, firstNew), c) == EntryAt(h, c)
  {
    var cap := Capacity(h);
    var h' := Doubled(h, firstNew);
    var j := c + h'.shift;
    ModUnique(j, 0, j, Capacity(h'));
    ModAdd(h.num + h.shift, 1 + j, cap);
    assert h.num + h.shift + (1 + j) == c + h.shift + 1 * cap;
    ModShift(c + h.shift, 1, cap);
  }

  lemma RotatedAt(index: seq<int>, tail: int, i: nat, j: nat)
    requires i < j < |index| && (forall x, y :: 0 <= x < y < |index| ==> index[x] != index[y])
    ensures Rotated(index, tail)[i] != Rotated(index, tail)[j]
  {
    var a := (tail + 1 + i) % |index|;
    var b := (tail + 1 + j) % |index|;
    if a == b { ModInjective(tail + 1 + i, tail + 1 + j, |index|); }
    assert a < b || b < a;
  }

  lemma DoubledOk(h: Header, firstNew: nat)
    requires HeaderOk(h, firstNew) && h.exp < MAX_EXPONENT && Distinct(h)
    ensures HeaderOk(Doubled(h, firstNew), firstNew + Capacity(h)) && Distinct(Doubled(h, firstNew))
    ensures EntryAt(Doubled(h, firstNew), h.num + 1) == firstNew
  {
    var cap := Capacity(h);
    var h' := Doubled(h, firstNew);
    ModUnique(cap - 1, 0, cap - 1, 2 * cap);
    ModUnique(cap, 0, cap, 2 * cap);
    assert h.num + 1 + h'.shift == cap;
    forall j | 0 <= j < |h'.index| ensures 0 <= h'.index[j] < firstNew + cap && (j < cap ==> h'.index[j] < firstNew) {
      if j < cap { assert h'.index[j] == h.index[(h.tail + 1 + j) % |h.index|]; }
    }
    forall i, j | 0 <= i < j < |h'.index| ensures h'.index[i] != h'.index[j] {
      if j < cap { RotatedAt(h.index, h.tail, i, j); }
    }
  }

  /** The block a thread is busy with is live. */
  ghost predicate BusyLive(s: State, p: Pc)
    requires AllHeadersOk(s)
  {
    && (Held(p).Some? ==> Held(p).value / BLOCK_SIZE in s.live && LiveOk(s, Held(p).value / BLOCK_SIZE))
    && (p.Clear? ==> p.b in s.live && LiveOk(s, p.b))
  }

  lemma BusyBlockIsLive(s: State, p: Pc)
    requires Inv(s) && ThreadOk(s, p)
    ensures BusyLive(s, p)
  {
  }

  lemma UnfinishedGrows(s: State, s': State)
    requires UnfinishedLive(s) && s.live <= s'.live && s'.done == s.done
    requires s'.tailIndex == s.tailIndex || (s'.tailIndex == s.tailIndex + 1 && s.tailIndex / BLOCK_SIZE in s.live)
    ensures UnfinishedLive(s')
  {
  }

  // ---- producer steps ----

  lemma HeadersStay(s: State, s': State)
    requires AllHeadersOk(s) && s'.generations == s.generations && |s'.entries| == |s.entries|
    ensures AllHeadersOk(s')
  { }

  lemma LiveStays(s: State, s': State)
    requires AllHeadersOk(s) && AllHeadersOk(s') && AllLive(s) && s'.generations == s.generations && s'.entries == s.entries
    requires s'.live == s.live && s'.counters == s.counters && s'.done == s.done
    ensures AllLive(s')
  {
    forall b | b in s'.live ensures LiveOk(s', b) { assert LiveOk(s, b); }
  }

  /** Steps that only move the producer's program counter. */
  lemma SameMemory(s: State, s': State)
    requires Inv(s) && s' == s.(producer := s'.producer) && ProducerOk(s')
    requires !s.producer.PNull?
    requires s'.producer.PGrow? ==> s.entries[EntryAt(Current(s), Current(s).num + 1)].value.Some?
    ensures Inv(s')
  {
    HeadersStay(s, s');
    LiveStays(s, s');
    SameThreads(s, s');
  }

  lemma SameThreads(s: State, s': State)
    requires AllHeadersOk(s) && ThreadsOk(s) && s' == s.(producer := s'.producer) && AllHeadersOk(s')
    requires !s.producer.PNull?
    requires s'.producer.PGrow? ==> s.entries[EntryAt(Current(s), Current(s).num + 1)].value.Some?
    ensures ThreadsOk(s')
  {
    forall t | 0 <= t < |s'.pcs| ensures ThreadOk(s', s'.pcs[t]) { assert ThreadOk(s, s.pcs[t]); }
  }

  lemma RingCloses(h: Header, b: int, c: int)
    requires |h.index| == Capacity(h)
    ensures c - b == Capacity(h) ==> EntryAt(h, c) == EntryAt(h, b)
  {
    ModShift(b + h.shift, 1, Capacity(h));
  }

  /** A slot that was never used, or was given back, belongs to no live block. */
  lemma FreeSlotHasRoom(s: State, e: int)
    requires AllHeadersOk(s) && AllLive(s) && e == EntryAt(Current(s), Current(s).num + 1)
    requires s.entries[e].key == INVALID_BLOCK_BASE || s.entries[e].value.None?
    ensures Room(s)
  {
    var h := Current(s);
    forall b | b in s.live ensures h.num + 1 - b < Capacity(h) {
      assert LiveOk(s, b);
      RingCloses(h, b, h.num + 1);
      BaseValid(b);
    }
  }

  lemma FindPreserves(s: State, ok: bool, junk: int -> Option<int>)
    requires Inv(s) && s.producer.PFind?
    ensures Inv(ProducerStep(s, ok, junk))
  {
    TailMoves(Current(s), |s.entries|);
    var s' := ProducerStep(s, ok, junk);
    if s'.producer.PKey? { FreeSlotHasRoom(s, s'.producer.e); }
    SameMemory(s, s');
  }

  lemma BaseValid(b: int)
    ensures Base(b) != INVALID_BLOCK_BASE
  {
    assert WORD == BLOCK_SIZE * 0x800_0000_0000_0000;
  }

  lemma GrowLive(s: State, s': State, b: int)
    requires AllHeadersOk(s) && b in s.live && LiveOk(s, b) && Current(s).exp < MAX_EXPONENT
    requires AllHeadersOk(s') && Current(s') == Doubled(Current(s), |s.entries|) && s.entries <= s'.entries
    requires s'.counters == s.counters && s'.done == s.done
    ensures LiveOk(s', b)
  {
    var h := Current(s);
    forall c | b <= c <= h.num ensures EntryAt(Current(s'), c) == EntryAt(h, c) { DoubledKeepsEntry(h, |s.entries|, c); }
  }

  lemma GrowHeaders(s: State, s': State)
    requires AllHeadersOk(s) && Current(s).exp < MAX_EXPONENT
    requires s'.generations == s.generations + [Doubled(Current(s), |s.entries|)]
    requires |s'.entries| == |s.entries| + Capacity(Current(s))
    ensures AllHeadersOk(s') && EntryAt(Current(s'), Current(s).num + 1) == |s.entries|
  {
    DoubledOk(Current(s), |s.entries|);
    forall v | 0 <= v < |s'.generations| ensures HeaderOk(s'.generations[v], |s'.entries|)
      && s'.generations[v].num <= Current(s').num && s'.generations[v].exp <= Current(s').exp {
      if v < |s.generations| { assert HeaderOk(s.generations[v], |s.entries|) && s'.generations[v] == s.generations[v]; }
    }
  }

  lemma GrowPreserves(s: State, ok: bool, junk: int -> Option<int>)
    requires Inv(s) && s.producer.PGrow?
    ensures Inv(ProducerStep(s, ok, junk))
  {
    var s' := ProducerStep(s, ok, junk);
    if ok && Current(s).exp < MAX_EXPONENT {
      GrowHeaders(s, s');
      TailMoves(Current(s'), |s'.entries|);
      GrowKeeps(s, s', s'.producer.e);
    } else {
      SameMemory(s, s');
    }
  }

  lemma GrowKeeps(s: State, s': State, e: int)
    requires Inv(s) && s.producer.PGrow? && Current(s).exp < MAX_EXPONENT && AllHeadersOk(s')
    requires s.entries <= s'.entries && |s'.entries| == |s.entries| + Capacity(Current(s))
    requires s' == s.(entries := s'.entries, generations := s.generations + [Doubled(Current(s), |s.entries|)], producer := PKey(e))
    requires e == EntryAt(Current(s'), Current(s').num + 1)
    ensures Inv(s')
  {
    GrowAllLive(s, s');
    GrowThreads(s, s');
  }

  lemma GrowAllLive(s: State, s': State)
    requires AllHeadersOk(s) && AllLive(s) && Current(s).exp < MAX_EXPONENT
    requires AllHeadersOk(s') && Current(s') == Doubled(Current(s), |s.entries|) && s.entries <= s'.entries
    requires s'.counters == s.counters && s'.done == s.done && s'.live == s.live
    ensures AllLive(s') && Room(s')
  {
    DoubledTwice(Current(s), |s.entries|);
    forall b | b in s'.live ensures LiveOk(s', b) && Current(s').num + 1 - b < Capacity(Current(s')) {
      assert LiveOk(s, b);
      GrowLive(s, s', b);
    }
  }

  lemma DoubledTwice(h: Header, n: nat)
    requires HeaderOk(h, n) && h.exp < MAX_EXPONENT
    ensures Capacity(Doubled(h, n)) == 2 * Capacity(h) && Capacity(h) >= 32 && Doubled(h, n).num == h.num
  {
    CapacityAtLeast(h, n);
  }

  lemma GrowThreads(s: State, s': State)
    requires Inv(s) && s.producer.PGrow?
    requires AllHeadersOk(s') && s'.generations == s.generations + [Doubled(Current(s), |s.entries|)]
    requires Current(s).exp < MAX_EXPONENT && |s'.entries| == |s.entries| + Capacity(Current(s))
    requires s.entries <= s'.entries && s'.producer.PKey? && s'.tailIndex == s.tailIndex
    requires s'.done == s.done && s'.taken == s.taken && s'.live == s.live && s'.pcs == s.pcs
    ensures ThreadsOk(s')
  {
    var h := Current(s);
    forall c | h.num - Capacity(h) < c <= h.num ensures EntryAt(Current(s'), c) == EntryAt(h, c) {
      DoubledKeepsEntry(h, |s.entries|, c);
    }
    forall t | 0 <= t < |s'.pcs| ensures ThreadOk(s', s'.pcs[t]) {
      assert ThreadOk(s, s.pcs[t]);
      BusyBlockIsLive(s, s.pcs[t]);
      GrowThread(s, s', s.pcs[t]);
    }
  }

  /** What a lookup under way knows survives the publication of a doubled index. */
  lemma GrowThread(s: State, s': State, p: Pc)
    requires AllHeadersOk(s) && s.producer.PGrow? && ThreadOk(s, p) && BusyLive(s, p)
    requires AllHeadersOk(s') && s'.generations == s.generations + [Doubled(Current(s), |s.entries|)]
    requires s.entries <= s'.entries && s'.tailIndex == s.tailIndex
    requires s'.done == s.done && s'.taken == s.taken && s'.live == s.live
    requires forall c :: Current(s).num - Capacity(Current(s)) < c <= Current(s).num ==> EntryAt(Current(s'), c) == EntryAt(Current(s), c)
    ensures ThreadOk(s', p)
  {
    match p
    case LoadTail(i, v) => GrowWindow(s, s', v, i / BLOCK_SIZE, s.generations[v].num);
    case LoadKey(i, v, _, q) =>
      GrowKeyed(s, s', q);
      GrowWindow(s, s', v, i / BLOCK_SIZE, q);
    case Locate(i, v, _, q, _) =>
      GrowKeyed(s, s', q);
      GrowWindow(s, s', v, i / BLOCK_SIZE, q);
    case _ =>
  }

  lemma GrowKeyed(s: State, s': State, q: int)
    requires AllHeadersOk(s) && s.producer.PGrow? && Keyed(s, q) && q > Current(s).num - Capacity(Current(s))
    requires AllHeadersOk(s') && Current(s') == Doubled(Current(s), |s.entries|) && s.entries <= s'.entries
    requires forall c :: Current(s).num - Capacity(Current(s)) < c <= Current(s).num ==> EntryAt(Current(s'), c) == EntryAt(Current(s), c)
    ensures Keyed(s', q) && q <= Current(s).num
  { }

  lemma GrowWindow(s: State, s': State, v: nat, b: int, q: int)
    requires AllHeadersOk(s) && AllHeadersOk(s') && v < |s.generations| && s.generations <= s'.generations
    requires Window(s, v, b, q) && b > Current(s).num - Capacity(Current(s)) && q <= Current(s).num
    requires forall c :: Current(s).num - Capacity(Current(s)) < c <= Current(s).num ==> EntryAt(Current(s'), c) == EntryAt(Current(s), c)
    ensures Window(s', v, b, q)
  {
    assert s'.generations[v] == s.generations[v];
  }

  /** Writing the entry of the next slot touches no entry a live block or a lookup relies on. */
  lemma NextEntryApart(s: State, b: int)
    requires Inv(s) && Room(s) && b in s.live
    ensures forall c :: b <= c <= Current(s).num ==> EntryAt(Current(s), c) != EntryAt(Current(s), Current(s).num + 1)
  {
    var h := Current(s);
    assert LiveOk(s, b);
    forall c | b <= c <= h.num ensures EntryAt(h, c) != EntryAt(h, h.num + 1) { EntriesDiffer(h, c, h.num + 1); }
  }

  lemma KeyPreserves(s: State, ok: bool, junk: int -> Option<int>)
    requires Inv(s) && s.producer.PKey?
    ensures Inv(ProducerStep(s, ok, junk))
  {
    var s' := ProducerStep(s, ok, junk);
    forall b | b in s'.live ensures LiveOk(s', b) { assert LiveOk(s, b); NextEntryApart(s, b); }
    forall t | 0 <= t < |s'.pcs| ensures ThreadOk(s', s'.pcs[t]) {
      assert ThreadOk(s, s.pcs[t]);
      NextEntryThread(s, s', s.pcs[t]);
    }
  }

  lemma NullPreserves(s: State, ok: bool, junk: int -> Option<int>)
    requires Inv(s) && s.producer.PNull?
    ensures Inv(ProducerStep(s, ok, junk))
  {
    var s' := ProducerStep(s, ok, junk);
    forall b | b in s'.live ensures LiveOk(s', b) { assert LiveOk(s, b); NextEntryApart(s, b); }
    forall t | 0 <= t < |s'.pcs| ensures ThreadOk(s', s'.pcs[t]) {
      assert ThreadOk(s, s.pcs[t]);
      NextEntryThread(s, s', s.pcs[t]);
    }
  }

  lemma NextEntryThread(s: State, s': State, p: Pc)
    requires Inv(s) && Starting(s) && Room(s) && ThreadOk(s, p)
    requires s' == s.(entries := s'.entries, producer := s'.producer) && |s'.entries| == |s.entries|
    requires s'.producer.PTail? || s'.producer.PIdle?
    requires var e := EntryAt(Current(s), Current(s).num + 1);
      && (forall x :: 0 <= x < |s.entries| && x != e ==> s'.entries[x] == s.entries[x])
      && ((s'.entries[e] == s.entries[e].(key := Base(Current(s).num + 1)) && s.producer.PKey?) || s'.entries[e] == s.entries[e].(value := None))
    ensures ThreadOk(s', p)
  {
    if Held(p).Some? {
      var b := Held(p).value / BLOCK_SIZE;
      assert b in s.live;
      NextEntryApart(s, b);
    }
  }

  lemma TailLive(s: State, s': State, b: int)
    requires AllHeadersOk(s) && ProducerOk(s) && s.producer.PTail? && b in s.live && LiveOk(s, b)
    requires AllHeadersOk(s') && Current(s') == Current(s).(tail := Current(s').tail, num := Current(s).num + 1)
    requires s'.entries == s.entries && s'.counters == s.counters && s'.done == s.done
    ensures LiveOk(s', b)
  {
    assert forall c :: EntryAt(Current(s'), c) == EntryAt(Current(s), c);
  }

  /** The producer moves the tail of the current index by `d` blocks. */
  ghost predicate TailMoved(s: State, s': State, d: int)
    requires AllHeadersOk(s) && AllHeadersOk(s')
  {
    var h := Current(s); var h' := Current(s');
    && s' == s.(generations := WithCurrent(s, h'), producer := s'.producer)
    && h' == h.(tail := h'.tail, num := h.num + d)
  }

  lemma MovedHeaders(s: State, h': Header)
    requires AllHeadersOk(s) && HeaderOk(h', |s.entries|) && h'.exp == Current(s).exp && h'.index == Current(s).index
    requires h'.num >= Current(s).num || forall v :: 0 <= v < |s.generations| - 1 ==> s.generations[v].num <= h'.num
    ensures AllHeadersOk(s.(generations := WithCurrent(s, h')))
  {
    var s' := s.(generations := WithCurrent(s, h'));
    forall v | 0 <= v < |s'.generations| ensures HeaderOk(s'.generations[v], |s'.entries|)
      && s'.generations[v].num <= h'.num && s'.generations[v].exp <= h'.exp {
      assert s'.generations[v] == if v == |s.generations| - 1 then h' else s.generations[v];
    }
  }

  lemma MovedWindow(s: State, s': State, d: int, v: nat, b: int, q: int)
    requires AllHeadersOk(s) && AllHeadersOk(s') && TailMoved(s, s', d) && v < |s.generations| && Window(s, v, b, q)
    ensures Window(s', v, b, q)
  {
    assert forall c :: EntryAt(Current(s'), c) == EntryAt(Current(s), c);
    assert forall c :: EntryAt(s'.generations[v], c) == EntryAt(s.generations[v], c);
  }

  /** The tail of an index that was replaced does not move; that of the current one is as far as the ring allows. */
  lemma MovedTail(s: State, s': State, d: int, v: nat, b: int)
    requires AllHeadersOk(s) && AllHeadersOk(s') && TailMoved(s, s', d) && v < |s.generations|
    requires Window(s, v, b, s.generations[v].num)
    requires b <= Current(s').num && Current(s').num - b < Capacity(Current(s'))
    ensures Window(s', v, b, s'.generations[v].num)
  {
    if v < |s.generations| - 1 {
      assert s'.generations[v] == s.generations[v];
      MovedWindow(s, s', d, v, b, s.generations[v].num);
    } else {
      assert s'.generations[v] == Current(s');
    }
  }

  lemma TailPreserves(s: State, ok: bool, junk: int -> Option<int>)
    requires Inv(s) && s.producer.PTail?
    ensures Inv(ProducerStep(s, ok, junk))
  {
    var s' := ProducerStep(s, ok, junk);
    TailMoves(Current(s), |s.entries|);
    MovedHeaders(s, Current(s'));
    assert TailMoved(s, s', 1);
    assert forall c :: EntryAt(Current(s'), c) == EntryAt(Current(s), c);
    forall b | b in s'.live ensures LiveOk(s', b) && b < Current(s').num {
      assert LiveOk(s, b);
      TailLive(s, s', b);
    }
    forall t | 0 <= t < |s'.pcs| ensures ThreadOk(s', s'.pcs[t]) {
      assert ThreadOk(s, s.pcs[t]);
      BusyBlockIsLive(s, s.pcs[t]);
      AdvancedTailThread(s, s', s.pcs[t]);
    }
  }

  /** A lookup under way does not mind the tail moving one block on. */
  lemma AdvancedTailThread(s: State, s': State, p: Pc)
    requires AllHeadersOk(s) && ProducerOk(s) && BusyLive(s, p) && ThreadOk(s, p) && AllHeadersOk(s')
    requires TailMoved(s, s', 1) && s.producer.PTail? && s'.producer.PBlock?
    ensures ThreadOk(s', p)
  {
    assert forall c :: EntryAt(Current(s'), c) == EntryAt(Current(s), c);
    match p
    case LoadTail(i, v) => MovedTail(s, s', 1, v, i / BLOCK_SIZE);
    case LoadKey(i, v, _, q) => MovedKeyed(s, s', 1, p, v, q);
    case Locate(i, v, _, q, _) => MovedKeyed(s, s', 1, p, v, q);
    case _ =>
  }

  /** A lookup that has read the tail finds its windows and its key unmoved. */
  lemma MovedKeyed(s: State, s': State, d: int, p: Pc, v: nat, q: int)
    requires AllHeadersOk(s) && AllHeadersOk(s') && TailMoved(s, s', d) && ThreadOk(s, p)
    requires (p.LoadKey? && p.v == v && p.q == q) || (p.Locate? && p.v == v && p.q == q)
    requires Keyed(s', q)
    ensures ThreadOk(s', p)
  {
    MovedWindow(s, s', d, v, p.i / BLOCK_SIZE, q);
    assert s'.generations[v].shift == s.generations[v].shift && s'.generations[v].exp == s.generations[v].exp;
  }

  /** Nor does it mind the tail moving back over a block that is not live. */
  lemma RewoundTailThread(s: State, s': State, p: Pc)
    requires AllHeadersOk(s) && ProducerOk(s) && BusyLive(s, p) && ThreadOk(s, p) && AllHeadersOk(s')
    requires TailMoved(s, s', -1) && s.producer.PRewind? && s'.producer.PNull?
    ensures ThreadOk(s', p)
  {
    assert forall c :: EntryAt(Current(s'), c) == EntryAt(Current(s), c);
    match p
    case LoadTail(i, v) => MovedTail(s, s', -1, v, i / BLOCK_SIZE);
    case LoadKey(i, v, _, q) => MovedKeyed(s, s', -1, p, v, q);
    case Locate(i, v, _, q, _) => MovedKeyed(s, s', -1, p, v, q);
    case _ =>
  }

  lemma RewindPreserves(s: State, ok: bool, junk: int -> Option<int>)
    requires Inv(s) && s.producer.PRewind?
    ensures Inv(ProducerStep(s, ok, junk))
  {
    var s' := ProducerStep(s, ok, junk);
    TailMoves(Current(s), |s.entries|);
    CapacityAtLeast(Current(s), |s.entries|);
    MovedHeaders(s, Current(s'));
    assert TailMoved(s, s', -1);
    assert forall c :: EntryAt(Current(s'), c) == EntryAt(Current(s), c);
    forall b | b in s'.live ensures LiveOk(s', b) { assert LiveOk(s, b); }
    forall t | 0 <= t < |s'.pcs| ensures ThreadOk(s', s'.pcs[t]) {
      assert ThreadOk(s, s.pcs[t]);
      BusyBlockIsLive(s, s.pcs[t]);
      RewoundTailThread(s, s', s.pcs[t]);
    }
  }

  lemma ValueThread(s: State, s': State, p: Pc)
    requires AllHeadersOk(s) && ProducerOk(s) && s.producer.PValue? && ThreadOk(s, p)
    requires s' == s.(entries := s'.entries, live := s.live + {Current(s).num}, counters := s'.counters, producer := PConstruct)
    requires var e := EntryAt(Current(s), Current(s).num); s'.entries == s.entries[e := s.entries[e].(value := Some(Current(s).num))]
    ensures ThreadOk(s', p)
  {
  }

  lemma ValueLive(s: State, s': State, b: int)
    requires AllHeadersOk(s) && ProducerOk(s) && s.producer.PValue? && b in s.live && LiveOk(s, b)
    requires s' == s.(entries := s'.entries, live := s'.live, counters := s.counters[Current(s).num := 0], producer := PConstruct)
    requires var e := EntryAt(Current(s), Current(s).num); s'.entries == s.entries[e := s.entries[e].(value := Some(Current(s).num))]
    ensures LiveOk(s', b)
  {
    EntriesDiffer(Current(s), b, Current(s).num);
  }

  lemma ValueAllLive(s: State, s': State)
    requires Inv(s) && s.producer.PValue?
    requires s' == s.(entries := s'.entries, live := s.live + {Current(s).num}, counters := s.counters[Current(s).num := 0], producer := PConstruct)
    requires var e := EntryAt(Current(s), Current(s).num); s'.entries == s.entries[e := s.entries[e].(value := Some(Current(s).num))]
    ensures AllLive(s')
  {
    forall b | b in s'.live ensures LiveOk(s', b) {
      if b == Current(s).num {
        assert DoneIn(s.done, b) == {};
      } else {
        ValueLive(s, s', b);
      }
    }
  }

  lemma ValuePreserves(s: State, ok: bool, junk: int -> Option<int>)
    requires Inv(s) && s.producer.PValue?
    ensures Inv(ProducerStep(s, ok, junk))
  {
    var s' := ProducerStep(s, ok, junk);
    assert s'.generations == s.generations && |s'.entries| == |s.entries|;
    UnfinishedGrows(s, s');
    ValueAllLive(s, s');
    forall t | 0 <= t < |s'.pcs| ensures ThreadOk(s', s'.pcs[t]) {
      assert ThreadOk(s, s.pcs[t]);
      ValueThread(s, s', s.pcs[t]);
    }
  }

  lemma ConstructThread(s: State, p: Pc)
    requires AllHeadersOk(s) && ProducerOk(s) && s.producer.PConstruct? && ThreadOk(s, p)
    ensures ThreadOk(s.(tailIndex := s.tailIndex + 1, producer := PIdle), p)
  {
  }

  lemma ConstructProducer(s: State)
    requires AllHeadersOk(s) && ProducerOk(s) && s.producer.PConstruct?
    ensures ProducerOk(s.(tailIndex := s.tailIndex + 1, producer := PIdle))
  { }

  lemma ConstructThreads(s: State, s': State)
    requires AllHeadersOk(s) && ProducerOk(s) && s.producer.PConstruct? && ThreadsOk(s)
    requires s' == s.(tailIndex := s.tailIndex + 1, producer := PIdle) && AllHeadersOk(s')
    ensures ThreadsOk(s')
  {
    forall t | 0 <= t < |s'.pcs| ensures ThreadOk(s', s'.pcs[t]) {
      assert ThreadOk(s, s.pcs[t]);
      ConstructThread(s, s.pcs[t]);
    }
  }

  lemma ConstructPreserves(s: State, s': State)
    requires Inv(s) && s.producer.PConstruct? && s' == s.(tailIndex := s.tailIndex + 1, producer := PIdle)
    ensures Inv(s')
  {
    HeadersStay(s, s');
    LiveStays(s, s');
    ConstructProducer(s);
    UnfinishedGrows(s, s');
    ConstructThreads(s, s');
  }

  lemma ProducerPreserves(s: State, ok: bool, junk: int -> Option<int>)
    requires Inv(s)
    ensures Inv(ProducerStep(s, ok, junk))
  {
    match s.producer
    case PFind => FindPreserves(s, ok, junk);
    case PGrow => GrowPreserves(s, ok, junk);
    case PKey(_) => KeyPreserves(s, ok, junk);
    case PTail(_) => TailPreserves(s, ok, junk);
    case PValue(_) => ValuePreserves(s, ok, junk);
    case PRewind(_) => RewindPreserves(s, ok, junk);
    case PNull(_) => NullPreserves(s, ok, junk);
    case PConstruct => ConstructPreserves(s, ProducerStep(s, ok, junk));
    case PIdle =>
      if s.tailIndex % BLOCK_SIZE != 0 { assert s.tailIndex / BLOCK_SIZE in s.live by { assert s.tailIndex !in s.done; } }
      SameMemory(s, ProducerStep(s, ok, junk));
    case PBlock(_) => SameMemory(s, ProducerStep(s, ok, junk));
  }

  // ---- consumer steps ----

  lemma LookupPreserves(s: State, t: nat, i: int)
    requires Inv(s) && t < |s.pcs| && ThreadOk(s, s.pcs[t])
    requires !s.pcs[t].SetEmpty? && !s.pcs[t].Clear?
    ensures ConsumerReady(s, t)
    ensures Inv(ConsumerStep(s, t, i))
  {
    var p := s.pcs[t];
    BusyBlockIsLive(s, p);
    LookupReady(s, p);
    LookupKeeps(s, ConsumerStep(s, t, i), t, i);
  }

  lemma LookupKeeps(s: State, s': State, t: nat, i: int)
    requires Inv(s) && t < |s.pcs| == |s'.pcs| && ThreadOk(s, s.pcs[t])
    requires !s.pcs[t].SetEmpty? && !s.pcs[t].Clear?
    requires s' == s.(taken := s'.taken, pcs := s.pcs[t := s'.pcs[t]]) && s.taken <= s'.taken
    requires LookupMove(s, s', s.pcs[t], s'.pcs[t], i)
    ensures Inv(s')
  {
    var p := s.pcs[t];
    BusyBlockIsLive(s, p);
    LookupThread(s, s', p, s'.pcs[t], i);
    forall q | AllHeadersOk(s) && ThreadOk(s, q) ensures ThreadOk(s', q) { LookupOther(s, s', q); }
    LiveStays(s, s');
    ApartAfter(s, s', t, i);
  }

  lemma LookupOther(s: State, s': State, q: Pc)
    requires AllHeadersOk(s) && ThreadOk(s, q)
    requires s' == s.(taken := s'.taken, pcs := s'.pcs) && s.taken <= s'.taken
    ensures ThreadOk(s', q)
  {
  }

  /** What a step of a lookup makes of the thread's own state, in terms of entries rather than slots. */
  ghost predicate LookupMove(s: State, s': State, p: Pc, p': Pc, i: int)
    requires AllHeadersOk(s) && (p.LoadTail? ==> p.v < |s.generations|) && (p.Use? ==> 0 <= p.e < |s.entries|)
  {
    match p
    case Idle => p' == p || (p' == LoadHeader(i) && Holding(s', i) && i !in s.taken)
    case LoadHeader(x) => p' == LoadTail(x, |s.generations| - 1)
    case LoadTail(x, v) => p' == LoadKey(x, v, s.generations[v].tail, s.generations[v].num)
    case LoadKey(x, v, slot, q) => p' == Locate(x, v, slot, q, s.entries[EntryAt(Current(s), q)].key)
    case Locate(x, v, slot, q, key) => p' == Use(x, EntryAt(Current(s), x / BLOCK_SIZE))
    case Use(x, e) => s.entries[e].value.Some? && p' == SetEmpty(x, e, s.entries[e].value.value)
    case _ => false
  }

  lemma LookupReady(s: State, p: Pc)
    requires AllHeadersOk(s) && BusyLive(s, p) && ThreadOk(s, p)
    ensures p.LoadKey? ==> s.generations[p.v].index[p.t] == EntryAt(Current(s), p.q)
    ensures p.Locate? ==>
      var h := s.generations[p.v];
      h.index[LookupSlot(p.t, p.key, p.i, Capacity(h))] == EntryAt(Current(s), p.i / BLOCK_SIZE)
  {
    if p.Locate? { Located(s, p.v, p.i, p.q, p.t); }
  }

  lemma Located(s: State, v: nat, i: int, q: int, t: int)
    requires AllHeadersOk(s) && v < |s.generations| && Window(s, v, i / BLOCK_SIZE, q)
    requires t == (q + s.generations[v].shift) % Capacity(s.generations[v])
    ensures var h := s.generations[v]; h.index[LookupSlot(t, Base(q), i, Capacity(h))] == EntryAt(Current(s), i / BLOCK_SIZE)
  {
    var h := s.generations[v];
    LookupSlotExact(i, q, h);
    assert EntryAt(h, i / BLOCK_SIZE) == EntryAt(Current(s), i / BLOCK_SIZE);
  }

  lemma LookupThread(s: State, s': State, p: Pc, p': Pc, i: int)
    requires AllHeadersOk(s) && BusyLive(s, p) && ThreadOk(s, p) && LookupMove(s, s', p, p', i)
    requires s' == s.(taken := s'.taken, pcs := s'.pcs) && s.taken <= s'.taken
    ensures ThreadOk(s', p')
  {
    if p.LoadHeader? {
      HeaderLoaded(s, s', p);
    } else if p.LoadTail? {
      TailLoaded(s, s', p);
    }
  }

  lemma HeaderLoaded(s: State, s': State, p: Pc)
    requires AllHeadersOk(s) && BusyLive(s, p) && ThreadOk(s, p) && p.LoadHeader?
    requires s' == s.(taken := s'.taken, pcs := s'.pcs) && s.taken <= s'.taken
    ensures ThreadOk(s', LoadTail(p.i, |s.generations| - 1))
  {
    assert LiveOk(s, p.i / BLOCK_SIZE);
  }

  lemma TailLoaded(s: State, s': State, p: Pc)
    requires AllHeadersOk(s) && BusyLive(s, p) && ThreadOk(s, p) && p.LoadTail?
    requires s' == s.(taken := s'.taken, pcs := s'.pcs) && s.taken <= s'.taken
    ensures var h := s.generations[p.v]; ThreadOk(s', LoadKey(p.i, p.v, h.tail, h.num))
  {
    var h := s.generations[p.v];
    assert LiveOk(s, p.i / BLOCK_SIZE) && h.num <= Current(s).num;
    assert EntryAt(h, h.num) == EntryAt(Current(s), h.num);
  }

  lemma ApartAfter(s: State, s': State, t: nat, i: int)
    requires Inv(s) && t < |s.pcs| == |s'.pcs| && s'.pcs == s.pcs[t := s'.pcs[t]]
    requires !s'.pcs[t].Clear?
    requires Held(s'.pcs[t]) == Held(s.pcs[t]) || Held(s'.pcs[t]).None? || (Held(s'.pcs[t]) == Some(i) && i !in s.taken)
    ensures AllApart(s'.pcs)
  {
    forall u, v | 0 <= u < v < |s'.pcs| ensures Apart(s'.pcs[u], s'.pcs[v]) {
      assert Apart(s.pcs[u], s.pcs[v]) && ThreadOk(s, s.pcs[u]) && ThreadOk(s, s.pcs[v]);
    }
  }

  // ---- emptying a block ----

  /** The completely-dequeued count reaches the block size exactly when every element is done. */
  lemma CountFull(done: set<int>, b: int)
    ensures |DoneIn(done, b)| <= BLOCK_SIZE
    ensures |DoneIn(done, b)| == BLOCK_SIZE <==> AllDone(done, b)
  {
    var all := Range(b * BLOCK_SIZE, BLOCK_SIZE);
    forall j ensures j in all <==> j / BLOCK_SIZE == b {}
    SubsetOfRange(DoneIn(done, b), b * BLOCK_SIZE, BLOCK_SIZE);
    if AllDone(done, b) {
      assert DoneIn(done, b) == all;
    } else if |DoneIn(done, b)| == BLOCK_SIZE {
      forall j | j in all ensures j in done { assert j in DoneIn(done, b); }
    }
  }

  lemma DoneInAdds(done: set<int>, x: int, b: int)
    requires x !in done
    ensures |DoneIn(done + {x}, b)| == |DoneIn(done, b)| + if x / BLOCK_SIZE == b then 1 else 0
  {
    if x / BLOCK_SIZE == b {
      assert DoneIn(done + {x}, b) == DoneIn(done, b) + {x};
    } else {
      assert DoneIn(done + {x}, b) == DoneIn(done, b);
    }
  }

  lemma SetEmptyPreserves(s: State, t: nat, i: int)
    requires Inv(s) && t < |s.pcs| && ThreadOk(s, s.pcs[t]) && s.pcs[t].SetEmpty?
    ensures ConsumerReady(s, t)
    ensures Inv(ConsumerStep(s, t, i))
  {
    BusyBlockIsLive(s, s.pcs[t]);
    SetEmptyCount(s, s.pcs[t]);
    SetEmptyKeeps(s, ConsumerStep(s, t, i), t);
  }

  lemma SetEmptyKeeps(s: State, s': State, t: nat)
    requires Inv(s) && t < |s.pcs| == |s'.pcs| && ThreadOk(s, s.pcs[t]) && s.pcs[t].SetEmpty? && BusyLive(s, s.pcs[t])
    requires var p := s.pcs[t];
      && s' == s.(done := s.done + {p.i}, counters := s.counters[p.block := s.counters[p.block] + 1], pcs := s.pcs[t := s'.pcs[t]])
      && (s'.pcs[t] == Idle || (s'.pcs[t] == Clear(p.block, p.e) && AllDone(s'.done, p.block)))
    ensures Inv(s')
  {
    HeadersStay(s, s');
    SetEmptyAllLive(s, s', s.pcs[t]);
    SetEmptyThreads(s, s', t);
  }

  lemma SetEmptyAllLive(s: State, s': State, p: Pc)
    requires AllHeadersOk(s) && AllLive(s) && p.SetEmpty? && BusyLive(s, p) && ThreadOk(s, p)
    requires s' == s.(done := s.done + {p.i}, counters := s.counters[p.block := s.counters[p.block] + 1], pcs := s'.pcs)
    ensures AllLive(s')
  {
    forall b | b in s'.live ensures LiveOk(s', b) { SetEmptyLive(s, s', p, b); }
  }

  lemma SetEmptyCount(s: State, p: Pc)
    requires AllHeadersOk(s) && p.SetEmpty? && BusyLive(s, p) && ThreadOk(s, p)
    ensures s.counters[p.block] + 1 == |DoneIn(s.done + {p.i}, p.block)|
    ensures s.counters[p.block] == BLOCK_SIZE - 1 <==> AllDone(s.done + {p.i}, p.block)
  {
    DoneInAdds(s.done, p.i, p.block);
    CountFull(s.done + {p.i}, p.block);
  }

  lemma SetEmptyLive(s: State, s': State, p: Pc, b: int)
    requires AllHeadersOk(s) && p.SetEmpty? && b in s.live && LiveOk(s, b)
    requires p.i !in s.done && p.block == p.i / BLOCK_SIZE && p.block in s.counters
    requires s' == s.(done := s.done + {p.i}, counters := s.counters[p.block := s.counters[p.block] + 1], pcs := s'.pcs)
    ensures LiveOk(s', b)
  {
    DoneInAdds(s.done, p.i, b);
  }

  /** Only the thread that makes a block's count full goes on to clear its entry. */
  lemma SetEmptyThreads(s: State, s': State, t: nat)
    requires AllHeadersOk(s) && t < |s.pcs| && (forall u :: 0 <= u < |s.pcs| ==> ThreadOk(s, s.pcs[u])) && AllApart(s.pcs)
    requires s.pcs[t].SetEmpty? && s.pcs[t].block in s.live
    requires |s'.pcs| == |s.pcs|
    requires s' == s.(done := s.done + {s.pcs[t].i}, counters := s'.counters, pcs := s.pcs[t := s'.pcs[t]])
    requires s'.pcs[t] == Idle || (s'.pcs[t] == Clear(s.pcs[t].block, s.pcs[t].e) && AllDone(s'.done, s.pcs[t].block))
    ensures forall u :: 0 <= u < |s'.pcs| ==> ThreadOk(s', s'.pcs[u])
    ensures AllApart(s'.pcs)
  {
    forall u | 0 <= u < |s'.pcs| ensures ThreadOk(s', s'.pcs[u]) {
      if u < t {
        assert Apart(s.pcs[u], s.pcs[t]);
        DoneThread(s, s', s.pcs[u], s.pcs[t].i);
      } else if u > t {
        assert Apart(s.pcs[t], s.pcs[u]);
        DoneThread(s, s', s.pcs[u], s.pcs[t].i);
      }
    }
    forall u, v | 0 <= u < v < |s'.pcs| ensures Apart(s'.pcs[u], s'.pcs[v]) {
      assert Apart(s.pcs[u], s.pcs[v]) && ThreadOk(s, s.pcs[u]) && ThreadOk(s, s.pcs[v]);
    }
  }

  lemma DoneThread(s: State, s': State, q: Pc, x: int)
    requires AllHeadersOk(s) && ThreadOk(s, q) && Held(q) != Some(x)
    requires s' == s.(done := s.done + {x}, counters := s'.counters, pcs := s'.pcs)
    ensures ThreadOk(s', q)
  {
  }

  lemma ClearPreserves(s: State, t: nat, i: int)
    requires Inv(s) && t < |s.pcs| && ThreadOk(s, s.pcs[t]) && s.pcs[t].Clear?
    ensures ConsumerReady(s, t)
    ensures Inv(ConsumerStep(s, t, i))
  {
    var p := s.pcs[t];
    BusyBlockIsLive(s, p);
    ClearKeeps(s, ConsumerStep(s, t, i), t, i);
  }

  lemma ClearKeeps(s: State, s': State, t: nat, i: int)
    requires Inv(s) && t < |s.pcs| && ThreadOk(s, s.pcs[t]) && s.pcs[t].Clear? && BusyLive(s, s.pcs[t])
    requires var p := s.pcs[t];
      s' == s.(entries := s.entries[p.e := s.entries[p.e].(value := None)], live := s.live - {p.b}, pcs := s.pcs[t := Idle])
    ensures Inv(s')
  {
    var p := s.pcs[t];
    forall b | b in s'.live ensures LiveOk(s', b) { ClearLive(s, s', p, b); }
    ClearThreads(s, s', t);
    ApartAfter(s, s', t, i);
    ClearUnfinished(s, s', p.b);
    assert s.tailIndex !in s.done;
  }

  lemma ClearThreads(s: State, s': State, t: nat)
    requires AllHeadersOk(s) && t < |s.pcs| && (forall u :: 0 <= u < |s.pcs| ==> ThreadOk(s, s.pcs[u])) && AllApart(s.pcs)
    requires s.pcs[t].Clear? && BusyLive(s, s.pcs[t]) && ThreadOk(s, s.pcs[t])
    requires var p := s.pcs[t];
      s' == s.(entries := s.entries[p.e := s.entries[p.e].(value := None)], live := s.live - {p.b}, pcs := s.pcs[t := Idle])
    ensures forall u :: 0 <= u < |s'.pcs| ==> ThreadOk(s', s'.pcs[u])
  {
    forall u | 0 <= u < |s'.pcs| ensures ThreadOk(s', s'.pcs[u]) {
      if u < t {
        assert Apart(s.pcs[u], s.pcs[t]);
        ClearThread(s, s', s.pcs[t], s.pcs[u]);
      } else if u > t {
        assert Apart(s.pcs[t], s.pcs[u]);
        ClearThread(s, s', s.pcs[t], s.pcs[u]);
      }
    }
  }

  lemma ClearUnfinished(s: State, s': State, b: int)
    requires UnfinishedLive(s) && AllDone(s.done, b)
    requires s'.done == s.done && s'.tailIndex == s.tailIndex && s'.live == s.live - {b}
    ensures UnfinishedLive(s')
  {
    forall j | 0 <= j && j / BLOCK_SIZE * BLOCK_SIZE < s.tailIndex && j !in s.done ensures j / BLOCK_SIZE in s'.live {
      assert j / BLOCK_SIZE == b ==> b * BLOCK_SIZE <= j < b * BLOCK_SIZE + BLOCK_SIZE;
    }
  }

  lemma ClearLive(s: State, s': State, p: Pc, b: int)
    requires AllHeadersOk(s) && p.Clear? && BusyLive(s, p) && p.e == EntryAt(Current(s), p.b)
    requires b in s.live && b != p.b && LiveOk(s, b)
    requires s' == s.(entries := s.entries[p.e := s.entries[p.e].(value := None)], live := s.live - {p.b}, pcs := s'.pcs)
    ensures LiveOk(s', b)
  {
    EntriesDiffer(Current(s), b, p.b);
  }

  lemma ClearThread(s: State, s': State, p: Pc, q: Pc)
    requires AllHeadersOk(s) && p.Clear? && BusyLive(s, p) && p.e == EntryAt(Current(s), p.b)
    requires ThreadOk(s, q) && (q.Clear? ==> q.b != p.b) && AllDone(s.done, p.b)
    requires s' == s.(entries := s.entries[p.e := s.entries[p.e].(value := None)], live := s.live - {p.b}, pcs := s'.pcs)
    ensures ThreadOk(s', q)
  {
  }

  lemma ConsumerPreserves(s: State, t: nat, i: int)
    requires Inv(s) && t < |s.pcs|
    ensures ConsumerReady(s, t) && Inv(ConsumerStep(s, t, i))
  {
    assert ThreadOk(s, s.pcs[t]);
    if s.pcs[t].SetEmpty? {
      SetEmptyPreserves(s, t, i);
    } else if s.pcs[t].Clear? {
      ClearPreserves(s, t, i);
    } else {
      LookupPreserves(s, t, i);
    }
  }

  // ---- whole runs ----

  datatype Turn = Produce(ok: bool, junk: int -> Option<int>) | Consume(thread: nat, i: int)

  ghost function Move(s: State, turn: Turn): State {
    match turn
    case Produce(ok, junk) => if ProducerReady(s) then ProducerStep(s, ok, junk) else s
    case Consume(t, i) => if ConsumerReady(s, t) then ConsumerStep(s, t, i) else s
  }

  ghost function Exec(s: State, schedule: seq<Turn>): State
    decreases schedule
  {
    if schedule == [] then s else Exec(Move(s, schedule[0]), schedule[1..])
  }

  lemma {:induction false} ExecPreserves(s: State, schedule: seq<Turn>)
    requires Inv(s)
    ensures Inv(Exec(s, schedule))
    decreases schedule
  {
    if schedule != [] {
      match schedule[0] {
        case Produce(ok, junk) => ProducerPreserves(s, ok, junk);
        case Consume(t, i) => if t < |s.pcs| { ConsumerPreserves(s, t, i); }
      }
      ExecPreserves(Move(s, schedule[0]), schedule[1..]);
    }
  }

  /** A new producer: one index of 32 fresh entries, whose values are not initialised. */
  ghost predicate Init(s: State) {
    && |s.generations| == 1 && |s.entries| == 32
    && s.generations[0] == Header(INITIAL_EXPONENT, seq(32, j => j), 31, -1, 0)
    && (forall j :: 0 <= j < |s.entries| ==> s.entries[j].key == INVALID_BLOCK_BASE)
    && s.producer == PIdle && s.tailIndex == 0
    && s.taken == {} && s.done == {} && s.live == {}
    && (forall t :: 0 <= t < |s.pcs| ==> s.pcs[t] == Idle)
  }

  lemma InitEstablishes(s: State)
    requires Init(s)
    ensures Inv(s)
  {
    InitialHeader(s.generations[0]);
    assert AllHeadersOk(s) && ProducerOk(s) && AllLive(s);
    NothingStarted(s);
  }

  lemma NothingStarted(s: State)
    requires s.tailIndex == 0
    ensures UnfinishedLive(s)
  { }

  lemma InitialHeader(h: Header)
    requires h == Header(INITIAL_EXPONENT, seq(32, j => j), 31, -1, 0)
    ensures HeaderOk(h, 32) && Distinct(h) && Capacity(h) == 32
  {
    Pow2Known();
  }

  lemma LookupNow(s: State, i: int)
    requires AllHeadersOk(s) && UnfinishedLive(s) && (forall b :: b in s.live ==> LiveOk(s, b))
    requires 0 <= i < s.tailIndex && i !in s.done
    ensures var h := Current(s);
      && |h.index| == Capacity(h) && 0 <= h.tail < |h.index| && 0 <= h.index[h.tail] < |s.entries|
      && var slot := LookupSlot(h.tail, s.entries[h.index[h.tail]].key, i, Capacity(h));
         0 <= h.index[slot] < |s.entries| && s.entries[h.index[slot]] == Entry(Base(i / BLOCK_SIZE), Some(i / BLOCK_SIZE))
  {
    var h := Current(s);
    var b := i / BLOCK_SIZE;
    assert b in s.live && LiveOk(s, b);
    LiveEntry(s, b);
    LookupSlotExact(i, h.num, h);
  }

  /** The entry of a live block, and the one at the tail, which the lookup starts from. */
  lemma LiveEntry(s: State, b: int)
    requires s.generations != [] && HeaderOk(Current(s), |s.entries|) && LiveOk(s, b)
    ensures var h := Current(s); 0 <= EntryAt(h, b) < |s.entries| && s.entries[EntryAt(h, b)] == Entry(Base(b), Some(b))
    ensures var h := Current(s); h.tail == (h.num + h.shift) % Capacity(h) && s.entries[h.index[h.tail]].key == Base(h.num)
  {
    var h := Current(s);
    assert h.index[h.tail] == EntryAt(h, h.num);
  }

  /**
   In every interleaving, for every element not yet dequeued: its block's entry holds the block, is keyed
   by the block's base, and is what a lookup made now finds, although keys are words that wrap and slots
   are reused, rewound and moved by doubling.
   */
  lemma LookupFindsBlock(s0: State, schedule: seq<Turn>, i: int)
    requires Init(s0)
    requires var s := Exec(s0, schedule); 0 <= i < s.tailIndex && i !in s.done
    ensures Exec(s0, schedule).generations != []
    ensures var s := Exec(s0, schedule); var h := Current(s);
      && |h.index| == Capacity(h) && 0 <= h.tail < |h.index| && 0 <= h.index[h.tail] < |s.entries|
      && var slot := LookupSlot(h.tail, s.entries[h.index[h.tail]].key, i, Capacity(h));
         0 <= h.index[slot] < |s.entries| && s.entries[h.index[slot]] == Entry(Base(i / BLOCK_SIZE), Some(i / BLOCK_SIZE))
  {
    InitEstablishes(s0);
    ExecPreserves(s0, schedule);
    LookupNow(Exec(s0, schedule), i);
  }

  /**
   And it is what a lookup that is under way has found: however many steps of other threads came between
   its loads of the index, the tail, the tail's key and the slot, the entry it ends up with holds the
   element's block. So no element is read from, or counted against, another block.
   */
  lemma SlowLookupFindsBlock(s0: State, schedule: seq<Turn>, t: nat)
    requires Init(s0)
    requires var s := Exec(s0, schedule); t < |s.pcs| && (s.pcs[t].Use? || s.pcs[t].SetEmpty?)
    ensures var s := Exec(s0, schedule); var p := s.pcs[t];
      && 0 <= p.e < |s.entries|
      && s.entries[p.e] == Entry(Base(p.i / BLOCK_SIZE), Some(p.i / BLOCK_SIZE))
      && (p.SetEmpty? ==> p.block == p.i / BLOCK_SIZE)
  {
    InitEstablishes(s0);
    ExecPreserves(s0, schedule);
    var s := Exec(s0, schedule);
    assert ThreadOk(s, s.pcs[t]);
    BusyBlockIsLive(s, s.pcs[t]);
  }

  /** A block's entry is cleared by exactly one consumer, and only once all of its elements are done. */
  lemma ClearedOnceWhenEmpty(s0: State, schedule: seq<Turn>, t: nat)
    requires Init(s0)
    requires var s := Exec(s0, schedule); t < |s.pcs| && s.pcs[t].Clear?
    ensures var s := Exec(s0, schedule); var b := s.pcs[t].b;
      && (forall i :: b * BLOCK_SIZE <= i < b * BLOCK_SIZE + BLOCK_SIZE ==> i in s.done)
      && (forall u :: 0 <= u < |s.pcs| && u != t && s.pcs[u].Clear? ==> s.pcs[u].b != b)
  {
    InitEstablishes(s0);
    ExecPreserves(s0, schedule);
    var s := Exec(s0, schedule);
    assert ThreadOk(s, s.pcs[t]);
    forall u | 0 <= u < |s.pcs| && u != t && s.pcs[u].Clear? ensures s.pcs[u].b != s.pcs[t].b {
      if u < t { assert Apart(s.pcs[u], s.pcs[t]); } else { assert Apart(s.pcs[t], s.pcs[u]); }
    }
  }
}
