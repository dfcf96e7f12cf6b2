/** Writing the core file of a crash report: memory walk, layout, then emission through a response. */
module CrashReports {
  import opened Common
  import opened LittleEndian
  import opened ElfCore
  import Responders

  /** The kernel's answer to a query of an address: the region that contains it. */
  function Query(rs: seq<Region>, addr: nat): (r: Option<Region>)
    ensures r.Some? ==> r.value in rs && r.value.base <= addr < r.value.base + r.value.size
  {
    if rs == [] then None
    else if rs[0].base <= addr < rs[0].base + rs[0].size then Some(rs[0])
    else Query(rs[1..], addr)
  }

  /** In a tiling, the query of a base is the region with that base. */
  lemma {:induction false} QueryBase(rs: seq<Region>, i: nat)
    requires i < |rs| && rs[i].size > 0
    requires forall j :: 0 <= j < i ==> rs[j].base + rs[j].size <= rs[i].base
    ensures Query(rs, rs[i].base) == Some(rs[i])
  {
    if i > 0 {
      assert rs[1..][i - 1] == rs[i];
      assert forall j :: 0 <= j < i - 1 ==> rs[1..][j] == rs[j + 1];
      QueryBase(rs[1..], i - 1);
    }
  }

  class CrashReport {
    var vmas: seq<Vma>
    var notes: seq<Note>

    constructor ()
      ensures vmas == [] && notes == []
    {
      vmas, notes := [], [];
    }

    method AddVma(addr: nat, size: nat, flags: nat)
      modifies this`vmas
      ensures vmas == old(vmas) + [Vma(0, addr, size, flags)]
    {
      vmas := vmas + [Vma(0, addr, size, flags)];
    }

    static method Pad(s: seq<byte>) returns (p: seq<byte>)
      ensures p == Padded(s)
    {
      p := s;
      while |p| % 4 != 0
        invariant |s| <= |p| <= |s| + PadSize(|s|) && p == s + Zeros(|p| - |s|)
        decreases |s| + PadSize(|s|) - |p|
      {
        p := p + [0];
      }
    }

    method AddNote(e: Entry)
      modifies this`notes
      ensures notes == old(notes) + [NoteOf(e)]
    {
      var name := Pad(e.name);
      var desc := Pad(e.desc);
      notes := notes + [Note(|e.name|, |e.desc|, e.kind, name, desc)];
    }

    /** Walks the address space from 0 until the end of a region wraps to 0, and keeps what can be read safely. */
    method WalkMemory(rs: seq<Region>)
      requires Tiles(rs)
      modifies this`vmas
      ensures vmas == old(vmas) + KeptVmas(rs)
    {
      ghost var k := 0;
      var vaddr := 0;
      var more := true;
      assert vmas + KeptVmas(rs[..0]) == vmas;
      while more
        invariant 0 <= k <= |rs| && (more <==> k < |rs|) && (more ==> vaddr == rs[k].base)
        invariant vmas == old(vmas) + KeptVmas(rs[..k])
        decreases |rs| - k
      {
        forall j | 0 <= j < k ensures rs[j].base + rs[j].size <= rs[k].base { TilesOrdered(rs, j, k); }
        QueryBase(rs, k);
        var mi := Query(rs, vaddr).value;
        KeptNext(rs, k);
        if mi.readable && mi.kind != IO_MEMORY {
          AddVma(mi.base, mi.size, Flags(mi));
        }
        if k + 1 < |rs| { TilesOrdered(rs, k, k + 1); }
        EndsInSpace(rs, k);
        vaddr := (mi.base + mi.size) % SPACE;
        k := k + 1;
        more := vaddr > 0;
      }
      assert rs[..k] == rs;
    }

    /** Gives every region its place in the file, and computes where notes and program headers start. */
    method LayOut() returns (total: nat, notesOffset: nat, phOffset: nat)
      modifies this`vmas
      ensures vmas == Placed(old(vmas))
      ensures notesOffset == NotesOffset(old(vmas)) && phOffset == PhOffset(old(vmas), notes)
      ensures total == TotalSize(old(vmas), notes)
    {
      ghost var was := vmas;
      total := EHDR_SIZE;
      var i := 0;
      while i < |vmas|
        invariant 0 <= i <= |vmas| == |was|
        invariant total == EHDR_SIZE + SizeBefore(was, i)
        invariant forall k :: 0 <= k < |was| ==> vmas[k] == if k < i then Placed(was)[k] else was[k]
      {
        vmas := vmas[i := vmas[i].(offset := total)];
        total := total + vmas[i].size;
        i := i + 1;
      }
      notesOffset := total;
      i := 0;
      assert notes[..0] == [];
      while i < |notes|
        invariant 0 <= i <= |notes| && total == notesOffset + NotesSize(notes[..i])
      {
        assert notes[..i + 1][..i] == notes[..i];
        total := total + 4 + 4 + 4 + |notes[i].name| + |notes[i].desc|;
        i := i + 1;
      }
      assert notes[..i] == notes;
      phOffset := total;
      total := total + PHDR_SIZE * (1 + |vmas|);
    }

    /** Writes the memory of one region, as much at a time as a transfer holds. */
    method WriteRegion(v: Vma, mem: nat -> byte, r: Responders.Response)
      requires r.Valid() && r.hasBegun
      modifies r`transferredSize, r`transfers
      ensures r.Valid() && Responders.Flat(r.transfers) == old(Responders.Flat(r.transfers)) + Memory(mem, v.addr, v.size)
    {
      ghost var start := Responders.Flat(r.transfers);
      var offset := 0;
      assert start + Memory(mem, v.addr, 0) == start;
      while offset < v.size
        invariant 0 <= offset && r.Valid()
        invariant Responders.Flat(r.transfers) == start + Memory(mem, v.addr, Least(offset, v.size))
        decreases v.size - offset
      {
        var size := Least(r.maxTransfer, v.size - offset);
        MemoryGrows(mem, v.addr, offset, size, start);
        r.SendData(Memory(mem, v.addr + offset, size));
        offset := offset + r.maxTransfer;
      }
    }

    method WriteRegions(mem: nat -> byte, r: Responders.Response)
      requires r.Valid() && r.hasBegun
      modifies r`transferredSize, r`transfers
      ensures r.Valid() && Responders.Flat(r.transfers) == old(Responders.Flat(r.transfers)) + Regions(vmas, mem)
    {
      ghost var start := Responders.Flat(r.transfers);
      var i := 0;
      assert vmas[..0] == [];
      while i < |vmas|
        invariant 0 <= i <= |vmas| && r.Valid()
        invariant Responders.Flat(r.transfers) == start + Regions(vmas[..i], mem)
      {
        RegionsNext(vmas, mem, i, start);
        WriteRegion(vmas[i], mem, r);
        i := i + 1;
      }
      assert vmas[..i] == vmas;
    }

    method CollectNotes() returns (bytes: seq<byte>)
      ensures bytes == NotesBytes(notes)
    {
      bytes := [];
      var i := 0;
      assert notes[..0] == [];
      while i < |notes|
        invariant 0 <= i <= |notes| && bytes == NotesBytes(notes[..i])
      {
        assert notes[..i + 1][..i] == notes[..i];
        bytes := bytes + NoteBytes(notes[i]);
        i := i + 1;
      }
      assert notes[..i] == notes;
    }

    method CollectLoadPhdrs() returns (bytes: seq<byte>)
      ensures bytes == LoadPhdrs(vmas)
    {
      bytes := [];
      var i := 0;
      assert vmas[..0] == [];
      while i < |vmas|
        invariant 0 <= i <= |vmas| && bytes == LoadPhdrs(vmas[..i])
      {
        assert vmas[..i + 1][..i] == vmas[..i];
        bytes := bytes + PhdrBytes(LoadPhdr(vmas[i]));
        i := i + 1;
      }
      assert vmas[..i] == vmas;
    }

    method WriteFront(total: nat, phOffset: nat, mem: nat -> byte, r: Responders.Response)
      requires r.Valid() && r.hasBegun && Responders.Flat(r.transfers) == []
      modifies r`transferredSize, r`transfers
      ensures r.Valid()
      ensures Responders.Flat(r.transfers) == Bytes(total, 8) + EhdrBytes(phOffset, 1 + |vmas|) + Regions(vmas, mem)
    {
      r.SendData(Bytes(total, 8));
      assert [] + Bytes(total, 8) == Bytes(total, 8);
      r.SendData(EhdrBytes(phOffset, 1 + |vmas|));
      WriteRegions(mem, r);
    }

    method WriteBack(notesOffset: nat, r: Responders.Response)
      requires r.Valid() && r.hasBegun
      modifies r`transferredSize, r`transfers
      ensures r.Valid()
      ensures Responders.Flat(r.transfers) ==
              old(Responders.Flat(r.transfers)) + NotesBytes(notes) +
              (PhdrBytes(Phdr(PT_NOTE, PF_R, notesOffset, 0, 0, NotesSize(notes), 0, 4)) + LoadPhdrs(vmas))
    {
      var notesBytes := CollectNotes();
      r.SendData(notesBytes);
      var phdrs := CollectLoadPhdrs();
      r.SendData(PhdrBytes(Phdr(PT_NOTE, PF_R, notesOffset, 0, 0, |notesBytes|, 0, 4)) + phdrs);
    }

    method WriteFile(total: nat, notesOffset: nat, phOffset: nat, mem: nat -> byte, r: Responders.Response)
      requires r.Valid() && r.hasBegun && Responders.Flat(r.transfers) == []
      modifies r`transferredSize, r`transfers
      ensures r.Valid()
      ensures Responders.Flat(r.transfers) == Bytes(total, 8) + Emitted(vmas, notes, notesOffset, phOffset, mem)
    {
      WriteFront(total, phOffset, mem, r);
      WriteBack(notesOffset, r);
      Emits(Bytes(total, 8), EhdrBytes(phOffset, 1 + |vmas|), Regions(vmas, mem), NotesBytes(notes),
            PhdrBytes(Phdr(PT_NOTE, PF_R, notesOffset, 0, 0, NotesSize(notes), 0, 4)) + LoadPhdrs(vmas));
    }

    /**
     Lays the file out, announces its size, and emits it: the size and the file are sent, as many bytes as were
     announced, so that a fresh response is never aborted.
     */
    method Generate(mem: nat -> byte, r: Responders.Response) returns (ok: bool)
      requires r.Valid() && !r.hasBegun && TotalSize(vmas, notes) < 0x1_0000_0000_0000_0000
      modifies this`vmas, r
      ensures r.Valid() && ok && r.header == Some(Responders.Announced(0, 8 + TotalSize(old(vmas), notes), 0))
      ensures Responders.Flat(r.transfers) == Bytes(TotalSize(old(vmas), notes), 8) + File(old(vmas), notes, mem)
    {
      ghost var file := File(vmas, notes, mem);
      LaidOut(vmas, notes, mem);
      FileSize(vmas, notes, mem);
      var total, notesOffset, phOffset := LayOut();
      ok := r.BeginError(0, 8 + total, 0);
      WriteFile(total, notesOffset, phOffset, mem, r);
      assert |Responders.Flat(r.transfers)| == 8 + |file|;
      ok := r.Finalize();
    }
  }

  /** What is written after the layout is the file. */
  lemma LaidOut(vmas: seq<Vma>, notes: seq<Note>, mem: nat -> byte)
    ensures Emitted(Placed(vmas), notes, NotesOffset(vmas), PhOffset(vmas, notes), mem) == File(vmas, notes, mem)
  {
    PlacedRegions(vmas, mem);
  }

  /** What is written for regions that have their places. */
  function Emitted(vmas: seq<Vma>, notes: seq<Note>, notesOffset: nat, phOffset: nat, mem: nat -> byte): seq<byte> {
    EhdrBytes(phOffset, 1 + |vmas|) + Regions(vmas, mem) + NotesBytes(notes) +
    (PhdrBytes(Phdr(PT_NOTE, PF_R, notesOffset, 0, 0, NotesSize(notes), 0, 4)) + LoadPhdrs(vmas))
  }

  function Least(a: nat, b: nat): nat { if a < b then a else b }

  lemma KeptNext(rs: seq<Region>, k: nat)
    requires k < |rs|
    ensures KeptVmas(rs[..k + 1]) == KeptVmas(rs[..k]) + (if Kept(rs[k]) then [VmaOf(rs[k])] else [])
  {
    assert rs[..k + 1][..k] == rs[..k];
  }

  /** Only the last region ends at the end of the address space. */
  lemma EndsInSpace(rs: seq<Region>, k: nat)
    requires Tiles(rs) && k < |rs|
    ensures if k + 1 < |rs| then 0 < rs[k].base + rs[k].size == rs[k + 1].base < SPACE else rs[k].base + rs[k].size == SPACE
  {
    if k + 1 < |rs| {
      assert rs[k].size > 0;
      if k + 1 < |rs| - 1 { TilesOrdered(rs, k + 1, |rs| - 1); }
    }
  }

  lemma MemoryGrows(mem: nat -> byte, addr: nat, offset: nat, size: nat, start: seq<byte>)
    ensures (start + Memory(mem, addr, offset)) + Memory(mem, addr + offset, size) == start + Memory(mem, addr, offset + size)
  { }

  lemma RegionsNext(vmas: seq<Vma>, mem: nat -> byte, i: nat, start: seq<byte>)
    requires i < |vmas|
    ensures start + Regions(vmas[..i + 1], mem) == (start + Regions(vmas[..i], mem)) + Memory(mem, vmas[i].addr, vmas[i].size)
  {
    assert vmas[..i + 1][..i] == vmas[..i];
  }

  /** The contents of the regions do not depend on their places in the file. */
  lemma {:induction false} PlacedRegions(vmas: seq<Vma>, mem: nat -> byte)
    ensures Regions(Placed(vmas), mem) == Regions(vmas, mem)
  {
    if vmas != [] {
      var n := |vmas| - 1;
      PlacedPrefix(vmas, n);
      PlacedRegions(vmas[..n], mem);
    }
  }

  lemma PlacedPrefix(vmas: seq<Vma>, n: nat)
    requires n <= |vmas|
    ensures Placed(vmas)[..n] == Placed(vmas[..n])
  {
    forall k | 0 <= k < n ensures Placed(vmas)[..n][k] == Placed(vmas[..n])[k] {
      SizeBeforePrefix(vmas, n, k);
    }
  }

  lemma Emits(size: seq<byte>, ehdr: seq<byte>, regions: seq<byte>, notes: seq<byte>, phdrs: seq<byte>)
    ensures ((size + ehdr + regions) + notes) + phdrs == size + (ehdr + regions + notes + phdrs)
  { }
}
