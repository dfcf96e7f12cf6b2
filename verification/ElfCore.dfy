/** The core file of a crash report: its layout, what a reader finds in it, and the walk over a process's memory. */
module ElfCore {
  import opened Common
  import opened LittleEndian

  const EHDR_SIZE := 64
  const PHDR_SIZE := 56
  const PT_LOAD := 1
  const PT_NOTE := 4
  const PF_X := 1
  const PF_W := 2
  const PF_R := 4
  const NOTE_HEADER := 12

  datatype Vma = Vma(offset: nat, addr: nat, size: nat, flags: nat)

  /** `name` and `desc` are padded to multiples of four; `namesz` and `descsz` are their sizes before that. */
  datatype Note = Note(namesz: nat, descsz: nat, kind: nat, name: seq<byte>, desc: seq<byte>)

  /** A note as its author gave it. */
  datatype Entry = Entry(name: seq<byte>, kind: nat, desc: seq<byte>)

  datatype Phdr = Phdr(kind: nat, flags: nat, offset: nat, vaddr: nat, paddr: nat, filesz: nat, memsz: nat, align: nat)

  // ---------------------------------------------------------------- notes

  function PadSize(n: nat): nat { (4 - n % 4) % 4 }

  function Zeros(n: nat): (s: seq<byte>)
    ensures |s| == n
  {
    seq(n, _ => 0)
  }

  function Padded(s: seq<byte>): (p: seq<byte>)
    ensures |p| % 4 == 0 && s <= p && |p| < |s| + 4
  {
    s + Zeros(PadSize(|s|))
  }

  function NoteOf(e: Entry): Note { Note(|e.name|, |e.desc|, e.kind, Padded(e.name), Padded(e.desc)) }

  ghost predicate FitsNote(e: Entry) { |e.name| < 0x1_0000_0000 && |e.desc| < 0x1_0000_0000 && e.kind < 0x1_0000_0000 }

  function NoteSize(n: Note): nat { 4 + 4 + 4 + |n.name| + |n.desc| }

  function NoteBytes(n: Note): (s: seq<byte>)
    ensures |s| == NoteSize(n)
  {
    Bytes(n.namesz, 4) + Bytes(n.descsz, 4) + Bytes(n.kind, 4) + n.name + n.desc
  }

  function NotesSize(ns: seq<Note>): nat { if ns == [] then 0 else NotesSize(ns[..|ns| - 1]) + NoteSize(ns[|ns| - 1]) }

  function NotesBytes(ns: seq<Note>): (s: seq<byte>)
    ensures |s| == NotesSize(ns)
  {
    if ns == [] then [] else NotesBytes(ns[..|ns| - 1]) + NoteBytes(ns[|ns| - 1])
  }

  function Number(s: seq<byte>, off: nat, w: nat): nat
    requires off + w <= |s|
  {
    LittleEndian.Value(s[off..off + w])
  }

  datatype Parsed = Malformed | Entries(entries: seq<Entry>)

  /** Reads a note section: three numbers, then name and descriptor, each up to the next multiple of four. */
  function ParseNotes(s: seq<byte>): Parsed
    decreases |s|, 1
  {
    if s == [] then Entries([])
    else if |s| < NOTE_HEADER then Malformed
    else ParseEntry(s, Number(s, 0, 4), Number(s, 4, 4), Number(s, 8, 4))
  }

  function ParseEntry(s: seq<byte>, namesz: nat, descsz: nat, kind: nat): Parsed
    requires |s| >= NOTE_HEADER
    decreases |s|, 0
  {
    var descAt := NOTE_HEADER + namesz + PadSize(namesz);
    var end := descAt + descsz + PadSize(descsz);
    if end > |s| then Malformed
    else
      WithFirst(Entry(s[NOTE_HEADER..NOTE_HEADER + namesz], kind, s[descAt..descAt + descsz]), ParseNotes(s[end..]))
  }

  function WithFirst(e: Entry, later: Parsed): Parsed {
    if later.Malformed? then Malformed else Entries([e] + later.entries)
  }

  function NotesOf(es: seq<Entry>): (ns: seq<Note>)
    ensures |ns| == |es| && forall i :: 0 <= i < |ns| ==> ns[i] == NoteOf(es[i])
  {
    seq(|es|, i requires 0 <= i < |es| => NoteOf(es[i]))
  }

  lemma NumberAt(before: seq<byte>, n: nat, w: nat, after: seq<byte>)
    requires n < Power256(w)
    ensures Number(before + (Bytes(n, w) + after), |before|, w) == n
  {
    var s := before + (Bytes(n, w) + after);
    assert s[|before|..|before| + w] == Bytes(n, w);
    FitsWidth(n, w);
  }

  /** The same bytes, seen from each of the three numbers and from the name on. */
  lemma NoteParts(a: seq<byte>, b: seq<byte>, c: seq<byte>, name: seq<byte>, desc: seq<byte>, rest: seq<byte>)
    ensures (a + b + c + name + desc) + rest == [] + (a + (b + c + name + desc + rest))
    ensures (a + b + c + name + desc) + rest == a + (b + (c + name + desc + rest))
    ensures (a + b + c + name + desc) + rest == (a + b) + (c + (name + desc + rest))
    ensures (a + b + c + name + desc) + rest == (a + b + c) + name + desc + rest
  {
  }

  lemma NoteNumbers(n: Note, rest: seq<byte>)
    requires n.namesz < 0x1_0000_0000 && n.descsz < 0x1_0000_0000 && n.kind < 0x1_0000_0000
    ensures var s := NoteBytes(n) + rest; Number(s, 0, 4) == n.namesz && Number(s, 4, 4) == n.descsz && Number(s, 8, 4) == n.kind
  {
    PowersKnown();
    var a, b, c := Bytes(n.namesz, 4), Bytes(n.descsz, 4), Bytes(n.kind, 4);
    NoteParts(a, b, c, n.name, n.desc, rest);
    NumberAt([], n.namesz, 4, b + c + n.name + n.desc + rest);
    NumberAt(a, n.descsz, 4, c + n.name + n.desc + rest);
    NumberAt(a + b, n.kind, 4, n.name + n.desc + rest);
  }

  /** The first note of a section is read back. */
  lemma ParseFirst(e: Entry, rest: seq<byte>)
    requires FitsNote(e)
    ensures ParseNotes(NoteBytes(NoteOf(e)) + rest) == WithFirst(e, ParseNotes(rest))
  {
    var n := NoteOf(e);
    NoteNumbers(n, rest);
    var a, b, c := Bytes(n.namesz, 4), Bytes(n.descsz, 4), Bytes(n.kind, 4);
    NoteParts(a, b, c, n.name, n.desc, rest);
    ParseBody(e, a + b + c, rest);
    ParseStep(NoteBytes(n) + rest, e, NOTE_HEADER + |n.name|, NoteSize(n), rest);
  }

  lemma ParseStep(s: seq<byte>, e: Entry, descAt: nat, end: nat, rest: seq<byte>)
    requires NOTE_HEADER <= end <= |s| && Number(s, 0, 4) == |e.name| && Number(s, 4, 4) == |e.desc| && Number(s, 8, 4) == e.kind
    requires descAt == NOTE_HEADER + |e.name| + PadSize(|e.name|) && end == descAt + |e.desc| + PadSize(|e.desc|)
    requires s[NOTE_HEADER..NOTE_HEADER + |e.name|] == e.name && s[descAt..descAt + |e.desc|] == e.desc && s[end..] == rest
    ensures ParseNotes(s) == WithFirst(e, ParseNotes(rest))
  {
    ParseFields(s, |e.name|, |e.desc|, e.kind, descAt, end);
  }

  lemma ParseFields(s: seq<byte>, namesz: nat, descsz: nat, kind: nat, descAt: nat, end: nat)
    requires NOTE_HEADER <= end <= |s|
    requires descAt == NOTE_HEADER + namesz + PadSize(namesz) && end == descAt + descsz + PadSize(descsz)
    ensures ParseEntry(s, namesz, descsz, kind) ==
            WithFirst(Entry(s[NOTE_HEADER..NOTE_HEADER + namesz], kind, s[descAt..descAt + descsz]), ParseNotes(s[end..]))
  { }

  lemma ParseBody(e: Entry, head: seq<byte>, rest: seq<byte>)
    requires |head| == NOTE_HEADER
    ensures var s := head + Padded(e.name) + Padded(e.desc) + rest;
            var descAt := NOTE_HEADER + |Padded(e.name)|; var end := descAt + |Padded(e.desc)|;
            |Padded(e.name)| == |e.name| + PadSize(|e.name|) && |Padded(e.desc)| == |e.desc| + PadSize(|e.desc|) &&
            s[NOTE_HEADER..NOTE_HEADER + |e.name|] == e.name && s[descAt..descAt + |e.desc|] == e.desc && s[end..] == rest
  { }

  lemma NotesBytesCons(n: Note, ns: seq<Note>)
    ensures NotesBytes([n] + ns) == NoteBytes(n) + NotesBytes(ns)
  {
    if ns == [] {
      assert ([n] + ns)[..0] == [] && [n] + ns == [n];
      assert NotesBytes([n]) == NotesBytes([]) + NoteBytes(n);
    } else {
      var k := |ns| - 1;
      NotesBytesCons(n, ns[..k]);
      assert ([n] + ns)[..k + 1] == [n] + ns[..k];
      assert (NoteBytes(n) + NotesBytes(ns[..k])) + NoteBytes(ns[k]) == NoteBytes(n) + (NotesBytes(ns[..k]) + NoteBytes(ns[k]));
    }
  }

  /** The note section parses back to the notes that were added. */
  lemma {:induction false} NotesRoundtrip(es: seq<Entry>)
    requires forall e :: e in es ==> FitsNote(e)
    ensures ParseNotes(NotesBytes(NotesOf(es))) == Entries(es)
  {
    if es == [] {
    } else {
      NotesBytesCons(NoteOf(es[0]), NotesOf(es[1..]));
      assert NotesOf(es) == [NoteOf(es[0])] + NotesOf(es[1..]);
      NotesRoundtrip(es[1..]);
      ParseFirst(es[0], NotesBytes(NotesOf(es[1..])));
      assert [es[0]] + es[1..] == es;
    }
  }

  // ---------------------------------------------------------------- layout

  /** The size of the regions before the `k`th. */
  function SizeBefore(vmas: seq<Vma>, k: nat): nat
    requires k <= |vmas|
  {
    if k == 0 then 0 else SizeBefore(vmas, k - 1) + vmas[k - 1].size
  }

  function Placed(vmas: seq<Vma>): (r: seq<Vma>)
    ensures |r| == |vmas|
  {
    seq(|vmas|, k requires 0 <= k < |vmas| => vmas[k].(offset := EHDR_SIZE + SizeBefore(vmas, k)))
  }

  function NotesOffset(vmas: seq<Vma>): nat { EHDR_SIZE + SizeBefore(vmas, |vmas|) }

  function PhOffset(vmas: seq<Vma>, notes: seq<Note>): nat { NotesOffset(vmas) + NotesSize(notes) }

  function TotalSize(vmas: seq<Vma>, notes: seq<Note>): nat { PhOffset(vmas, notes) + PHDR_SIZE * (1 + |vmas|) }

  // ---------------------------------------------------------------- contents

  function Ident(): (s: seq<byte>)
    ensures |s| == 16
  {
    [0x7f, 0x45, 0x4c, 0x46, 2, 1, 1, 3] + Zeros(8)
  }

  /** A core file for AArch64 with this program header table and no sections. */
  function EhdrBytes(phoff: nat, phnum: nat): (s: seq<byte>)
    ensures |s| == EHDR_SIZE
  {
    Ident() + Bytes(4, 2) + Bytes(0xb7, 2) + Bytes(1, 4) + Bytes(0, 8) + Bytes(phoff, 8) + Bytes(0, 8) + Bytes(0, 4) +
    Bytes(EHDR_SIZE, 2) + Bytes(PHDR_SIZE, 2) + Bytes(phnum, 2) + Bytes(64, 2) + Bytes(0, 2) + Bytes(0, 2)
  }

  function PhdrBytes(p: Phdr): (s: seq<byte>)
    ensures |s| == PHDR_SIZE
  {
    Bytes(p.kind, 4) + Bytes(p.flags, 4) + Bytes(p.offset, 8) + Bytes(p.vaddr, 8) + Bytes(p.paddr, 8) + Bytes(p.filesz, 8) +
    Bytes(p.memsz, 8) + Bytes(p.align, 8)
  }

  function NotePhdr(vmas: seq<Vma>, notes: seq<Note>): Phdr {
    Phdr(PT_NOTE, PF_R, NotesOffset(vmas), 0, 0, NotesSize(notes), 0, 4)
  }

  function LoadPhdr(v: Vma): Phdr { Phdr(PT_LOAD, v.flags, v.offset, v.addr, 0, v.size, v.size, 0x1000) }

  function LoadPhdrs(vmas: seq<Vma>): (s: seq<byte>)
    ensures |s| == PHDR_SIZE * |vmas|
  {
    if vmas == [] then [] else LoadPhdrs(vmas[..|vmas| - 1]) + PhdrBytes(LoadPhdr(vmas[|vmas| - 1]))
  }

  /** The memory of the process from `addr` on. */
  function Memory(mem: nat -> byte, addr: nat, size: nat): (s: seq<byte>)
    ensures |s| == size
  {
    seq(size, i requires 0 <= i < size => mem(addr + i))
  }

  function Regions(vmas: seq<Vma>, mem: nat -> byte): (s: seq<byte>)
    ensures |s| == SizeBefore(vmas, |vmas|)
  {
    if vmas == [] then []
    else
      var k := |vmas| - 1;
      SizeBeforePrefix(vmas, k, k);
      Regions(vmas[..k], mem) + Memory(mem, vmas[k].addr, vmas[k].size)
  }

  lemma {:induction false} SizeBeforePrefix(vmas: seq<Vma>, n: nat, k: nat)
    requires k <= n <= |vmas|
    ensures SizeBefore(vmas[..n], k) == SizeBefore(vmas, k)
    decreases k
  {
    if k > 0 { SizeBeforePrefix(vmas, n, k - 1); }
  }

  function File(vmas: seq<Vma>, notes: seq<Note>, mem: nat -> byte): seq<byte> {
    EhdrBytes(PhOffset(vmas, notes), 1 + |vmas|) + Regions(vmas, mem) + NotesBytes(notes) +
    (PhdrBytes(NotePhdr(vmas, notes)) + LoadPhdrs(Placed(vmas)))
  }

  // ---------------------------------------------------------------- what a reader finds

  /** The `k`th program header, found from the table's offset in the file header. */
  function ReadPhdr(file: seq<byte>, k: nat): Option<Phdr> {
    if |file| < EHDR_SIZE then None
    else
      var at := Number(file, 32, 8) + k * PHDR_SIZE;
      if k >= Number(file, 56, 2) || at + PHDR_SIZE > |file| then None
      else Some(PhdrAt(file, at))
  }

  function PhdrAt(s: seq<byte>, at: nat): Phdr
    requires at + PHDR_SIZE <= |s|
  {
    Phdr(Number(s, at, 4), Number(s, at + 4, 4), Number(s, at + 8, 8), Number(s, at + 16, 8), Number(s, at + 24, 8),
         Number(s, at + 32, 8), Number(s, at + 40, 8), Number(s, at + 48, 8))
  }

  /** The bytes of the file a program header covers. */
  function Window(file: seq<byte>, p: Phdr): seq<byte>
    requires p.offset + p.filesz <= |file|
  {
    file[p.offset..p.offset + p.filesz]
  }

  ghost predicate FitsVma(v: Vma) {
    v.addr < 0x1_0000_0000_0000_0000 && v.size < 0x1_0000_0000_0000_0000 && v.flags < 0x1_0000_0000
  }

  /** The sizes fit the fields that hold them. */
  ghost predicate FitsFile(vmas: seq<Vma>, notes: seq<Note>) {
    && |vmas| < 65535 && TotalSize(vmas, notes) < 0x1_0000_0000_0000_0000
    && forall k :: 0 <= k < |vmas| ==> FitsVma(vmas[k])
  }

  lemma FileSize(vmas: seq<Vma>, notes: seq<Note>, mem: nat -> byte)
    ensures |File(vmas, notes, mem)| == TotalSize(vmas, notes)
  {
  }

  lemma Embedded(before: seq<byte>, part: seq<byte>, after: seq<byte>, off: nat, w: nat)
    requires off + w <= |part|
    ensures Number(before + part + after, |before| + off, w) == Number(part, off, w)
  {
    var s := before + part + after;
    assert s[|before| + off..|before| + off + w] == part[off..off + w];
  }

  lemma EhdrFields(phoff: nat, phnum: nat)
    requires phoff < 0x1_0000_0000_0000_0000 && phnum < 0x1_0000
    ensures Number(EhdrBytes(phoff, phnum), 32, 8) == phoff && Number(EhdrBytes(phoff, phnum), 56, 2) == phnum
  {
    PowersKnown();
    FitsWidth(phoff, 8);
    FitsWidth(phnum, 2);
    var s := EhdrBytes(phoff, phnum);
    assert s[32..40] == Bytes(phoff, 8);
    assert s[56..58] == Bytes(phnum, 2);
  }

  lemma PhdrFields(p: Phdr)
    requires p.kind < 0x1_0000_0000 && p.flags < 0x1_0000_0000
    requires p.offset < 0x1_0000_0000_0000_0000 && p.vaddr < 0x1_0000_0000_0000_0000 && p.paddr < 0x1_0000_0000_0000_0000
    requires p.filesz < 0x1_0000_0000_0000_0000 && p.memsz < 0x1_0000_0000_0000_0000 && p.align < 0x1_0000_0000_0000_0000
    ensures PhdrAt(PhdrBytes(p), 0) == p
  {
    PowersKnown();
    var s := PhdrBytes(p);
    assert s[0..4] == Bytes(p.kind, 4) && s[4..8] == Bytes(p.flags, 4);
    assert s[8..16] == Bytes(p.offset, 8) && s[16..24] == Bytes(p.vaddr, 8);
    assert s[24..32] == Bytes(p.paddr, 8) && s[32..40] == Bytes(p.filesz, 8);
    assert s[40..48] == Bytes(p.memsz, 8) && s[48..56] == Bytes(p.align, 8);
    FitsWidth(p.kind, 4);
    FitsWidth(p.flags, 4);
    FitsWidth(p.offset, 8);
    FitsWidth(p.vaddr, 8);
    FitsWidth(p.paddr, 8);
    FitsWidth(p.filesz, 8);
    FitsWidth(p.memsz, 8);
    FitsWidth(p.align, 8);
  }

  /** A header inside a longer file. */
  lemma PhdrEmbedded(before: seq<byte>, p: Phdr, after: seq<byte>)
    ensures PhdrAt(before + PhdrBytes(p) + after, |before|) == PhdrAt(PhdrBytes(p), 0)
  {
    var s := PhdrBytes(p);
    Embedded(before, s, after, 0, 4);
    Embedded(before, s, after, 4, 4);
    Embedded(before, s, after, 8, 8);
    Embedded(before, s, after, 16, 8);
    Embedded(before, s, after, 24, 8);
    Embedded(before, s, after, 32, 8);
    Embedded(before, s, after, 40, 8);
    Embedded(before, s, after, 48, 8);
  }

  /** Region `k` lies where the layout puts it. */
  lemma {:induction false} RegionAt(vmas: seq<Vma>, mem: nat -> byte, k: nat)
    requires k < |vmas|
    ensures SizeBefore(vmas, k) + vmas[k].size <= |Regions(vmas, mem)|
    ensures Regions(vmas, mem)[SizeBefore(vmas, k)..SizeBefore(vmas, k) + vmas[k].size] == Memory(mem, vmas[k].addr, vmas[k].size)
    decreases |vmas|
  {
    var n := |vmas| - 1;
    SizeBeforePrefix(vmas, n, k);
    SizeBeforePrefix(vmas, n, n);
    if k < n { RegionAt(vmas[..n], mem, k); }
  }

  lemma Regroup(a: seq<byte>, b: seq<byte>, c: seq<byte>, d: seq<byte>)
    ensures (a + b + c) + d == a + b + (c + d)
    ensures a + b + c + d == [] + a + (b + c + d)
    ensures a + b + [] == a + b
  { }

  /** The table of load headers has header `k` at its place. */
  lemma {:induction false} LoadPhdrAt(vmas: seq<Vma>, k: nat) returns (before: seq<byte>, after: seq<byte>)
    requires k < |vmas|
    ensures |before| == PHDR_SIZE * k && LoadPhdrs(vmas) == before + PhdrBytes(LoadPhdr(vmas[k])) + after
    decreases |vmas|
  {
    var n := |vmas| - 1;
    var last := PhdrBytes(LoadPhdr(vmas[n]));
    assert LoadPhdrs(vmas) == LoadPhdrs(vmas[..n]) + last;
    if k == n {
      before, after := LoadPhdrs(vmas[..n]), [];
      Regroup(before, last, [], []);
    } else {
      before, after := LoadPhdrAt(vmas[..n], k);
      Regroup(before, PhdrBytes(LoadPhdr(vmas[k])), after, last);
      after := after + last;
    }
  }

  lemma ReadHeader(vmas: seq<Vma>, notes: seq<Note>, mem: nat -> byte)
    requires FitsFile(vmas, notes)
    ensures var f := File(vmas, notes, mem);
            |f| == TotalSize(vmas, notes) && Number(f, 32, 8) == PhOffset(vmas, notes) && Number(f, 56, 2) == 1 + |vmas|
  {
    var e := EhdrBytes(PhOffset(vmas, notes), 1 + |vmas|);
    var table := PhdrBytes(NotePhdr(vmas, notes)) + LoadPhdrs(Placed(vmas));
    Regroup(e, Regions(vmas, mem), NotesBytes(notes), table);
    EhdrFields(PhOffset(vmas, notes), 1 + |vmas|);
    Embedded([], e, Regions(vmas, mem) + NotesBytes(notes) + table, 32, 8);
    Embedded([], e, Regions(vmas, mem) + NotesBytes(notes) + table, 56, 2);
  }

  /** Everything before the program headers. */
  function Front(vmas: seq<Vma>, notes: seq<Note>, mem: nat -> byte): (s: seq<byte>)
    ensures |s| == PhOffset(vmas, notes)
  {
    EhdrBytes(PhOffset(vmas, notes), 1 + |vmas|) + Regions(vmas, mem) + NotesBytes(notes)
  }

  lemma Split(head: seq<byte>, a: seq<byte>, b: seq<byte>, p: seq<byte>, c: seq<byte>)
    requires b == a + p + c
    ensures head + b == (head + a) + p + c
  { }

  /** The header at place `k` of the table is the one written there. */
  lemma ReadEmbedded(vmas: seq<Vma>, notes: seq<Note>, mem: nat -> byte, k: nat, p: Phdr, before: seq<byte>, after: seq<byte>)
    requires FitsFile(vmas, notes) && k <= |vmas| && |before| == PHDR_SIZE * k
    requires PhdrBytes(NotePhdr(vmas, notes)) + LoadPhdrs(Placed(vmas)) == before + PhdrBytes(p) + after
    requires PhdrAt(PhdrBytes(p), 0) == p
    ensures ReadPhdr(File(vmas, notes, mem), k) == Some(p)
  {
    ReadHeader(vmas, notes, mem);
    var front := Front(vmas, notes, mem);
    Split(front, before, PhdrBytes(NotePhdr(vmas, notes)) + LoadPhdrs(Placed(vmas)), PhdrBytes(p), after);
    PhdrEmbedded(front + before, p, after);
  }

  lemma NotesWindow(vmas: seq<Vma>, notes: seq<Note>, mem: nat -> byte)
    ensures var p := NotePhdr(vmas, notes); var f := File(vmas, notes, mem);
            p.offset + p.filesz <= |f| && Window(f, p) == NotesBytes(notes)
  {
    var head := EhdrBytes(PhOffset(vmas, notes), 1 + |vmas|) + Regions(vmas, mem);
    var table := PhdrBytes(NotePhdr(vmas, notes)) + LoadPhdrs(Placed(vmas));
    Middle(head, NotesBytes(notes), table);
  }

  lemma Middle(a: seq<byte>, b: seq<byte>, c: seq<byte>)
    ensures (a + b + c)[|a|..|a| + |b|] == b
  { }

  /**
   Following the table of the emitted file: the first program header's window is the note section, which parses back to
   the notes that were added.
   */
  lemma NoteWindow(vmas: seq<Vma>, es: seq<Entry>, mem: nat -> byte)
    requires FitsFile(vmas, NotesOf(es)) && forall e :: e in es ==> FitsNote(e)
    ensures var f := File(vmas, NotesOf(es), mem); var p := NotePhdr(vmas, NotesOf(es));
            ReadPhdr(f, 0) == Some(p) && p.offset + p.filesz <= |f| && ParseNotes(Window(f, p)) == Entries(es)
  {
    var notes := NotesOf(es);
    var p := NotePhdr(vmas, notes);
    PhdrFields(p);
    assert [] + PhdrBytes(p) + LoadPhdrs(Placed(vmas)) == PhdrBytes(p) + LoadPhdrs(Placed(vmas));
    ReadEmbedded(vmas, notes, mem, 0, p, [], LoadPhdrs(Placed(vmas)));
    NotesWindow(vmas, notes, mem);
    NotesRoundtrip(es);
  }

  lemma LoadHeaderFound(vmas: seq<Vma>, notes: seq<Note>, mem: nat -> byte, k: nat)
    requires FitsFile(vmas, notes) && k < |vmas|
    ensures ReadPhdr(File(vmas, notes, mem), k + 1) == Some(LoadPhdr(Placed(vmas)[k]))
  {
    var p := LoadPhdr(Placed(vmas)[k]);
    var before, after := LoadPhdrAt(Placed(vmas), k);
    var first := PhdrBytes(NotePhdr(vmas, notes));
    Split(first, before, LoadPhdrs(Placed(vmas)), PhdrBytes(p), after);
    OffsetFits(vmas, notes, k);
    PhdrFields(p);
    ReadEmbedded(vmas, notes, mem, k + 1, p, first + before, after);
  }

  /** And the window of load header `k` holds exactly the memory of region `k`. */
  lemma LoadWindow(vmas: seq<Vma>, notes: seq<Note>, mem: nat -> byte, k: nat)
    requires FitsFile(vmas, notes) && k < |vmas|
    ensures var f := File(vmas, notes, mem); var p := LoadPhdr(Placed(vmas)[k]);
            ReadPhdr(f, k + 1) == Some(p) && p.vaddr == vmas[k].addr && p.flags == vmas[k].flags &&
            p.filesz == p.memsz == vmas[k].size && p.offset + p.filesz <= |f| &&
            Window(f, p) == Memory(mem, vmas[k].addr, vmas[k].size)
  {
    LoadHeaderFound(vmas, notes, mem, k);
    RegionAt(vmas, mem, k);
    RegionWindow(vmas, notes, mem, SizeBefore(vmas, k), vmas[k].size, Memory(mem, vmas[k].addr, vmas[k].size));
  }

  lemma {:induction false} SizeBeforeGrows(vmas: seq<Vma>, k: nat, n: nat)
    requires k <= n <= |vmas|
    ensures SizeBefore(vmas, k) <= SizeBefore(vmas, n)
    decreases n
  {
    if k < n { SizeBeforeGrows(vmas, k, n - 1); }
  }

  lemma OffsetFits(vmas: seq<Vma>, notes: seq<Note>, k: nat)
    requires FitsFile(vmas, notes) && k < |vmas|
    ensures Placed(vmas)[k].offset < 0x1_0000_0000_0000_0000
  {
    SizeBeforeGrows(vmas, k, |vmas|);
  }

  lemma RegionWindow(vmas: seq<Vma>, notes: seq<Note>, mem: nat -> byte, at: nat, size: nat, contents: seq<byte>)
    requires at + size <= |Regions(vmas, mem)| && Regions(vmas, mem)[at..at + size] == contents
    ensures var off := EHDR_SIZE + at; off + size <= |File(vmas, notes, mem)|
    ensures var off := EHDR_SIZE + at; File(vmas, notes, mem)[off..off + size] == contents
  {
    var e := EhdrBytes(PhOffset(vmas, notes), 1 + |vmas|);
    var table := PhdrBytes(NotePhdr(vmas, notes)) + LoadPhdrs(Placed(vmas));
    Inside(e, Regions(vmas, mem), NotesBytes(notes), table, at, size);
  }

  lemma Inside(a: seq<byte>, b: seq<byte>, c: seq<byte>, d: seq<byte>, at: nat, size: nat)
    requires at + size <= |b|
    ensures var off := |a| + at; (a + b + c + d)[off..off + size] == b[at..at + size]
  { }

  // ---------------------------------------------------------------- the address space

  const SPACE: nat := 0x1_0000_0000_0000_0000

  /** What the kernel says of one region of the address space. */
  datatype Region = Region(base: nat, size: nat, readable: bool, writable: bool, executable: bool, kind: nat)

  const IO_MEMORY := 1

  /** The regions cover the address space, in order and without gaps. */
  ghost predicate Tiles(rs: seq<Region>) {
    && rs != [] && rs[0].base == 0 && rs[|rs| - 1].base + rs[|rs| - 1].size == SPACE
    && (forall i :: 0 <= i < |rs| ==> rs[i].size > 0)
    && (forall i :: 0 <= i < |rs| - 1 ==> rs[i].base + rs[i].size == rs[i + 1].base)
  }

  predicate Kept(r: Region) { r.readable && r.kind != IO_MEMORY }

  function Flags(r: Region): nat {
    (if r.readable then PF_R else 0) + (if r.writable then PF_W else 0) + (if r.executable then PF_X else 0)
  }

  function VmaOf(r: Region): Vma { Vma(0, r.base, r.size, Flags(r)) }

  /** The regions a report keeps, in order. */
  function KeptVmas(rs: seq<Region>): seq<Vma> {
    if rs == [] then [] else KeptVmas(rs[..|rs| - 1]) + (if Kept(rs[|rs| - 1]) then [VmaOf(rs[|rs| - 1])] else [])
  }

  ghost predicate Ascending(vs: seq<Vma>) { forall i, j :: 0 <= i < j < |vs| ==> vs[i].addr + vs[i].size <= vs[j].addr }

  lemma {:induction false} TilesOrdered(rs: seq<Region>, i: nat, j: nat)
    requires Tiles(rs) && i < j < |rs|
    ensures rs[i].base + rs[i].size <= rs[j].base
    decreases j
  {
    if i < j - 1 { TilesOrdered(rs, i, j - 1); }
  }

  lemma {:induction false} KeptFrom(rs: seq<Region>, v: Vma)
    requires v in KeptVmas(rs)
    ensures exists i :: 0 <= i < |rs| && Kept(rs[i]) && v == VmaOf(rs[i])
  {
    var k := |rs| - 1;
    if v in KeptVmas(rs[..k]) {
      KeptFrom(rs[..k], v);
      var i :| 0 <= i < k && Kept(rs[..k][i]) && v == VmaOf(rs[..k][i]);
      assert Kept(rs[i]);
    } else {
      assert Kept(rs[k]);
    }
  }

  lemma {:induction false} KeptAll(rs: seq<Region>, i: nat)
    requires i < |rs| && Kept(rs[i])
    ensures VmaOf(rs[i]) in KeptVmas(rs)
  {
    var k := |rs| - 1;
    if i < k { KeptAll(rs[..k], i); }
  }

  lemma {:induction false} KeptAscending(rs: seq<Region>, n: nat)
    requires Tiles(rs) && n <= |rs|
    ensures Ascending(KeptVmas(rs[..n]))
    decreases n
  {
    if n > 0 {
      var k := n - 1;
      assert rs[..n][..k] == rs[..k];
      KeptAscending(rs, k);
      forall v | v in KeptVmas(rs[..k]) ensures v.addr + v.size <= rs[k].base {
        KeptFrom(rs[..k], v);
        var i :| 0 <= i < k && Kept(rs[..k][i]) && v == VmaOf(rs[..k][i]);
        TilesOrdered(rs, i, k);
      }
      var vs := KeptVmas(rs[..n]);
      forall i, j | 0 <= i < j < |vs| ensures vs[i].addr + vs[i].size <= vs[j].addr {
        if j == |KeptVmas(rs[..k])| { assert vs[i] in KeptVmas(rs[..k]); }
      }
    }
  }

  /** A report keeps exactly the readable regions that are not I/O memory, in ascending order and disjoint. */
  lemma KeptExactly(rs: seq<Region>, r: Region)
    requires Tiles(rs)
    ensures Ascending(KeptVmas(rs))
    ensures r in rs && Kept(r) ==> VmaOf(r) in KeptVmas(rs)
    ensures forall v :: v in KeptVmas(rs) ==> exists i :: 0 <= i < |rs| && Kept(rs[i]) && v == VmaOf(rs[i])
  {
    assert rs[..|rs|] == rs;
    KeptAscending(rs, |rs|);
    if r in rs && Kept(r) {
      var i :| 0 <= i < |rs| && rs[i] == r;
      KeptAll(rs, i);
    }
    forall v | v in KeptVmas(rs) ensures exists i :: 0 <= i < |rs| && Kept(rs[i]) && v == VmaOf(rs[i]) {
      KeptFrom(rs, v);
    }
  }
}
