/** A core file field by field, at the offsets of the System V gABI, chapters 4 and 5. */
module ElfText {
  import opened Common
  import opened LittleEndian
  import opened ElfCore

  /** The file header: magic, 64 bits, least significant byte first, current version; a core file for AArch64. */
  lemma HeaderText(phoff: nat, phnum: nat)
    requires phoff < 0x1_0000_0000_0000_0000 && phnum < 0x1_0000
    ensures var s := EhdrBytes(phoff, phnum);
            && s[..4] == [0x7f, 'E' as int, 'L' as int, 'F' as int] && s[4..9] == [2, 1, 1, 3, 0]
            && Number(s, 16, 2) == 4 && Number(s, 18, 2) == 183 && Number(s, 20, 4) == 1
            && Number(s, 32, 8) == phoff && Number(s, 52, 2) == 64 && Number(s, 54, 2) == 56 && Number(s, 56, 2) == phnum
            && Number(s, 24, 8) == Number(s, 40, 8) == Number(s, 48, 4) == Number(s, 60, 2) == 0
  {
    PowersKnown();
    EhdrFields(phoff, phnum);
    SmallField(4, 2);
    SmallField(183, 2);
    SmallField(1, 4);
    SmallField(64, 2);
    SmallField(56, 2);
    SmallField(0, 8);
    SmallField(0, 4);
    SmallField(0, 2);
    EhdrParts(Ident(), Bytes(4, 2), Bytes(0xb7, 2), Bytes(1, 4), Bytes(0, 8), Bytes(phoff, 8), Bytes(0, 4), Bytes(EHDR_SIZE, 2),
              Bytes(PHDR_SIZE, 2), Bytes(phnum, 2), Bytes(64, 2), Bytes(0, 2));
    assert Ident()[..4] == [0x7f, 0x45, 0x4c, 0x46] && Ident()[4..9] == [2, 1, 1, 3, 0];
  }

  lemma SmallField(n: nat, w: nat)
    requires n < 256 && w > 0
    ensures Value(Bytes(n, w)) == n
  {
    PowerAtLeast(w);
    FitsWidth(n, w);
  }

  lemma {:induction false} PowerAtLeast(w: nat)
    requires w > 0
    ensures Power256(w) >= 256
  {
    if w > 1 { PowerAtLeast(w - 1); }
  }

  /** Where the fields of the file header are. */
  lemma EhdrParts(ident: seq<byte>, kind: seq<byte>, machine: seq<byte>, version: seq<byte>, zero: seq<byte>, phoff: seq<byte>,
                  flags: seq<byte>, ehsize: seq<byte>, phsize: seq<byte>, phnum: seq<byte>, shsize: seq<byte>, none: seq<byte>)
    requires |ident| == 16 && |kind| == |machine| == |ehsize| == |phsize| == |phnum| == |shsize| == |none| == 2
    requires |version| == |flags| == 4 && |zero| == |phoff| == 8
    ensures var s := ident + kind + machine + version + zero + phoff + zero + flags + ehsize + phsize + phnum + shsize + none + none;
            && s[..4] == ident[..4] && s[4..9] == ident[4..9] && s[16..18] == kind && s[18..20] == machine && s[20..24] == version
            && s[24..32] == zero && s[40..48] == zero && s[48..52] == flags && s[52..54] == ehsize && s[54..56] == phsize
            && s[60..62] == none
  { }

  /** Where the fields of an entry of the program header table are. */
  ghost predicate HasEntry(f: seq<byte>, k: nat, p: Phdr) {
    |f| >= 64 && var at := Number(f, 32, 8) + 56 * k;
    && at + 56 <= |f| && Number(f, at, 4) == p.kind && Number(f, at + 4, 4) == p.flags && Number(f, at + 8, 8) == p.offset
    && Number(f, at + 16, 8) == p.vaddr && Number(f, at + 32, 8) == p.filesz && Number(f, at + 40, 8) == p.memsz
  }

  lemma EntryText(f: seq<byte>, k: nat, p: Phdr)
    requires ReadPhdr(f, k) == Some(p)
    ensures HasEntry(f, k, p)
  { }

  /**
   In the emitted file, the entry of region `k` in the program header table: loadable (1), with the region's address, size and
   rights, and the offset at which the file has its memory.
   */
  lemma LoadText(vmas: seq<Vma>, notes: seq<Note>, mem: nat -> byte, k: nat) returns (p: Phdr)
    requires FitsFile(vmas, notes) && k < |vmas|
    ensures |File(vmas, notes, mem)| == 64 + SizeBefore(vmas, |vmas|) + NotesSize(notes) + 56 * (|vmas| + 1)
    ensures HasEntry(File(vmas, notes, mem), k + 1, p)
    ensures p.kind == 1 && p.flags == vmas[k].flags && p.vaddr == vmas[k].addr && p.filesz == p.memsz == vmas[k].size
    ensures p.offset + p.filesz <= |File(vmas, notes, mem)|
    ensures File(vmas, notes, mem)[p.offset..p.offset + p.filesz] == Memory(mem, vmas[k].addr, vmas[k].size)
  {
    p := LoadPhdr(Placed(vmas)[k]);
    LoadWindow(vmas, notes, mem, k);
    FileSize(vmas, notes, mem);
    EntryText(File(vmas, notes, mem), k + 1, p);
  }

  /** The first entry: the notes (4), and the number of entries. */
  lemma NoteText(vmas: seq<Vma>, es: seq<Entry>, mem: nat -> byte) returns (p: Phdr)
    requires FitsFile(vmas, NotesOf(es)) && forall e :: e in es ==> FitsNote(e)
    ensures var f := File(vmas, NotesOf(es), mem); HasEntry(f, 0, p) && Number(f, 56, 2) == |vmas| + 1
    ensures p.kind == 4 && p.filesz == NotesSize(NotesOf(es)) && p.offset + p.filesz <= |File(vmas, NotesOf(es), mem)|
    ensures ParseNotes(File(vmas, NotesOf(es), mem)[p.offset..p.offset + p.filesz]) == Entries(es)
  {
    p := NotePhdr(vmas, NotesOf(es));
    NoteWindow(vmas, es, mem);
    ReadHeader(vmas, NotesOf(es), mem);
    EntryText(File(vmas, NotesOf(es), mem), 0, p);
  }

  /** Rights: executable 1, writable 2, readable 4. */
  lemma FlagsText(r: Region)
    ensures Flags(r) < 8 && (Flags(r) % 2 == 1 <==> r.executable) && (Flags(r) / 2 % 2 == 1 <==> r.writable) && (Flags(r) >= 4 <==> r.readable)
  { }

  /** A report has each readable region that is not I/O memory, with its address, size and rights, and no other. */
  lemma KeptText(rs: seq<Region>, r: Region)
    requires Tiles(rs)
    ensures r in rs && r.readable && r.kind != 1 ==>
              exists v :: v in KeptVmas(rs) && v.addr == r.base && v.size == r.size && v.flags == Flags(r)
    ensures forall v :: v in KeptVmas(rs) ==>
              exists i :: 0 <= i < |rs| && rs[i].readable && rs[i].kind != 1 && v.addr == rs[i].base && v.size == rs[i].size && v.flags == Flags(rs[i])
  {
    KeptExactly(rs, r);
    if r in rs && Kept(r) { assert VmaOf(r) in KeptVmas(rs); }
  }

  /** What a note holds: the sizes without padding, then name and descriptor, each padded with zeros to a multiple of four. */
  lemma NoteEntryText(e: Entry)
    requires FitsNote(e)
    ensures var s := NoteBytes(NoteOf(e)); var descAt := 12 + (|e.name| + 3) / 4 * 4;
            && |s| == descAt + (|e.desc| + 3) / 4 * 4
            && Number(s, 0, 4) == |e.name| && Number(s, 4, 4) == |e.desc| && Number(s, 8, 4) == e.kind
            && s[12..12 + |e.name|] == e.name && s[descAt..descAt + |e.desc|] == e.desc
            && (forall i :: 12 + |e.name| <= i < descAt ==> s[i] == 0) && forall i :: descAt + |e.desc| <= i < |s| ==> s[i] == 0
  {
    NoteNumbers(NoteOf(e), []);
    assert NoteBytes(NoteOf(e)) + [] == NoteBytes(NoteOf(e));
    PaddedText(e.name);
    PaddedText(e.desc);
    var a := Bytes(|e.name|, 4) + Bytes(|e.desc|, 4) + Bytes(e.kind, 4);
    ThreeParts(a, Padded(e.name), Padded(e.desc));
  }

  lemma PaddedText(s: seq<byte>)
    ensures |Padded(s)| == (|s| + 3) / 4 * 4 && Padded(s)[..|s|] == s && forall i :: |s| <= i < |Padded(s)| ==> Padded(s)[i] == 0
  { }

  lemma ThreeParts(a: seq<byte>, b: seq<byte>, c: seq<byte>)
    ensures var s := a + b + c;
            && (forall i :: 0 <= i < |b| ==> s[|a| + i] == b[i]) && (forall i :: 0 <= i < |c| ==> s[|a| + |b| + i] == c[i])
            && (forall n :: 0 <= n <= |b| ==> s[|a|..|a| + n] == b[..n])
            && (forall n :: 0 <= n <= |c| ==> s[|a| + |b|..|a| + |b| + n] == c[..n])
  { }
}
