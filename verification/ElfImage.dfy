/** ELF64 files written out field by field: where the rewriter finds what it edits, and what it does there. */
module ElfImage {
  import opened Wrappers
  import opened Bytes
  import opened ElfStrings
  import opened ElfRelocate
  import opened ElfTheorems

  // ---- headers -----------------------------------------------------------------------------------

  /** The file header; `ident` is what follows magic, class and byte order. */
  datatype FileHeader = FileHeader(ident: seq<byte>, kind: nat, machine: nat, version: nat, entry: nat, phoff: nat,
                                   shoff: nat, flags: nat, ehsize: nat, phentsize: nat, phnum: nat, shentsize: nat,
                                   shnum: nat, shstrndx: nat)
  {
    predicate Valid() {
      && |ident| == 10 && kind < Pow256(2) && machine < Pow256(2) && version < Pow256(4) && entry < Pow256(8)
      && phoff < Pow256(8) && shoff < Pow256(8) && flags < Pow256(4) && ehsize < Pow256(2) && phentsize < Pow256(2)
      && phnum < Pow256(2) && shentsize < Pow256(2) && shnum < Pow256(2) && shstrndx < Pow256(2)
    }

    /** A little-endian 64-bit file. */
    function Image(): seq<byte> {
      [0x7F, 0x45, 0x4C, 0x46, 2, 1] + (ident + (Written(kind, 2) + (Written(machine, 2) + (Written(version, 4)
      + (Written(entry, 8) + (Written(phoff, 8) + (Written(shoff, 8) + (Written(flags, 4) + (Written(ehsize, 2)
      + (Written(phentsize, 2) + (Written(phnum, 2) + (Written(shentsize, 2) + (Written(shnum, 2)
      + Written(shstrndx, 2))))))))))))))
    }
  }

  datatype SectionHeader = SectionHeader(name: nat, kind: nat, flags: nat, addr: nat, offset: nat, size: nat,
                                         link: nat, info: nat, align: nat, entsize: nat)
  {
    predicate Valid() {
      && name < Pow256(4) && kind < Pow256(4) && flags < Pow256(8) && addr < Pow256(8) && offset < Pow256(8)
      && size < Pow256(8) && link < Pow256(4) && info < Pow256(4) && align < Pow256(8) && entsize < Pow256(8)
    }

    function Image(): seq<byte> {
      Written(name, 4) + (Written(kind, 4) + (Written(flags, 8) + (Written(addr, 8) + (Written(offset, 8)
      + (Written(size, 8) + (Written(link, 4) + (Written(info, 4) + (Written(align, 8) + Written(entsize, 8)))))))))
    }
  }

  /** The buffer is a file with this header and these section headers. */
  ghost predicate IsElf(b: seq<byte>, fh: FileHeader, hs: seq<SectionHeader>) {
    && fh.Valid() && Has(b, 0, fh.Image()) && |hs| == fh.shnum
    && (forall i :: 0 <= i < |hs| ==> hs[i].Valid() && Has(b, fh.shoff + i * fh.shentsize, hs[i].Image()))
  }

  /** A field behind others. */
  lemma Field(b: seq<byte>, at: nat, v: nat, n: nat, rest: seq<byte>)
    requires v < Pow256(n) && Has(b, at, Written(v, n) + rest)
    ensures at + n <= |b| && Le(b, at, n) == v && Has(b, at + n, rest)
  {
    HasBoth(b, at, Written(v, n), rest);
    ReadBack(b, at, v, n);
  }

  lemma HeaderReadBack(b: seq<byte>, at: nat, h: SectionHeader)
    requires h.Valid() && Has(b, at, h.Image())
    ensures ParseSection(b, at) == Ok(Section(h.kind, h.offset, h.size, h.link))
  {
    hide Le, Written, Pow256, Has;
    var entsize := Written(h.entsize, 8);
    var align := Written(h.align, 8) + entsize;
    var info := Written(h.info, 4) + align;
    var link := Written(h.link, 4) + info;
    var size := Written(h.size, 8) + link;
    var offset := Written(h.offset, 8) + size;
    var addr := Written(h.addr, 8) + offset;
    var flags := Written(h.flags, 8) + addr;
    var kind := Written(h.kind, 4) + flags;
    Field(b, at, h.name, 4, kind);
    Field(b, at + 4, h.kind, 4, flags);
    Field(b, at + 8, h.flags, 8, addr);
    Field(b, at + 16, h.addr, 8, offset);
    Field(b, at + 24, h.offset, 8, size);
    Field(b, at + 32, h.size, 8, link);
    Field(b, at + 40, h.link, 4, info);
  }

  /** The header from its type field on, and from its section offset on. */
  function Fields(h: FileHeader): seq<byte> {
    Written(h.kind, 2) + (Written(h.machine, 2) + (Written(h.version, 4) + (Written(h.entry, 8) + (Written(h.phoff, 8)
    + LastFields(h)))))
  }

  function LastFields(h: FileHeader): seq<byte> {
    Written(h.shoff, 8) + (Written(h.flags, 4) + (Written(h.ehsize, 2) + (Written(h.phentsize, 2) + (Written(h.phnum, 2)
    + (Written(h.shentsize, 2) + (Written(h.shnum, 2) + Written(h.shstrndx, 2)))))))
  }

  lemma IdentReadBack(b: seq<byte>, h: FileHeader)
    requires h.Valid() && Has(b, 0, h.Image())
    ensures |b| >= 16 && b[..4] == [0x7F, 0x45, 0x4C, 0x46] && b[4] == 2 && b[5] == 1 && Has(b, 16, Fields(h))
  {
    hide Written, Pow256;
    var magic: seq<byte> := [0x7F, 0x45, 0x4C, 0x46, 2, 1];
    HasBoth(b, 0, magic, h.ident + Fields(h));
    HasBoth(b, 6, h.ident, Fields(h));
    assert b[0..6] == magic;
    assert b[..4] == b[0..6][..4] && b[4] == b[0..6][4] && b[5] == b[0..6][5];
  }

  lemma FieldsReadBack(b: seq<byte>, h: FileHeader)
    requires h.Valid() && Has(b, 16, Fields(h))
    ensures Has(b, 40, LastFields(h))
  {
    hide Le, Written, Pow256, Has, LastFields;
    var entry := Written(h.entry, 8) + (Written(h.phoff, 8) + LastFields(h));
    var version := Written(h.version, 4) + entry;
    Field(b, 16, h.kind, 2, Written(h.machine, 2) + version);
    Field(b, 18, h.machine, 2, version);
    Field(b, 20, h.version, 4, entry);
    Field(b, 24, h.entry, 8, Written(h.phoff, 8) + LastFields(h));
    Field(b, 32, h.phoff, 8, LastFields(h));
  }

  lemma LastFieldsReadBack(b: seq<byte>, h: FileHeader)
    requires h.Valid() && Has(b, 40, LastFields(h))
    ensures |b| >= 0x3E && Le(b, 0x28, 8) == h.shoff && Le(b, 0x3A, 2) == h.shentsize && Le(b, 0x3C, 2) == h.shnum
  {
    hide Le, Written, Pow256, Has;
    var shnum := Written(h.shnum, 2) + Written(h.shstrndx, 2);
    var shentsize := Written(h.shentsize, 2) + shnum;
    var phnum := Written(h.phnum, 2) + shentsize;
    var phentsize := Written(h.phentsize, 2) + phnum;
    var ehsize := Written(h.ehsize, 2) + phentsize;
    Field(b, 40, h.shoff, 8, Written(h.flags, 4) + ehsize);
    Field(b, 48, h.flags, 4, ehsize);
    Field(b, 52, h.ehsize, 2, phentsize);
    Field(b, 54, h.phentsize, 2, phnum);
    Field(b, 56, h.phnum, 2, shentsize);
    Field(b, 58, h.shentsize, 2, shnum);
    Field(b, 60, h.shnum, 2, Written(h.shstrndx, 2));
  }

  lemma FileReadBack(b: seq<byte>, h: FileHeader)
    requires h.Valid() && Has(b, 0, h.Image())
    ensures |b| >= 0x3E && b[..4] == [0x7F, 0x45, 0x4C, 0x46] && b[4] == 2 && b[5] == 1
    ensures Le(b, 0x28, 8) == h.shoff && Le(b, 0x3A, 2) == h.shentsize && Le(b, 0x3C, 2) == h.shnum
  {
    IdentReadBack(b, h);
    hide *;
    FieldsReadBack(b, h);
    LastFieldsReadBack(b, h);
  }

  /** What the script keeps of the headers. */
  function Parsed(hs: seq<SectionHeader>): (s: seq<Section>)
    ensures |s| == |hs|
  {
    seq(|hs|, i requires 0 <= i < |hs| => Section(hs[i].kind, hs[i].offset, hs[i].size, hs[i].link))
  }

  lemma {:induction false} SectionsReadBack(b: seq<byte>, fh: FileHeader, hs: seq<SectionHeader>, i: nat)
    requires IsElf(b, fh, hs) && i <= |hs|
    ensures ParseSections(b, fh.shoff, fh.shentsize, |hs|, i) == Ok(Parsed(hs)[i..])
    decreases |hs| - i
  {
    hide ParseSection, Has, SectionHeader.Image, FileHeader.Image;
    if i < |hs| {
      HeaderReadBack(b, HeaderAt(fh.shoff, fh.shentsize, i), hs[i]);
      SectionsReadBack(b, fh, hs, i + 1);
      assert Parsed(hs)[i..] == [Parsed(hs)[i]] + Parsed(hs)[i + 1..];
    } else {
      assert Parsed(hs)[i..] == [];
    }
  }

  lemma LocatesIn(b: seq<byte>, fh: FileHeader, hs: seq<SectionHeader>)
    requires IsElf(b, fh, hs)
    ensures Locate(b) == FindDynamic(Parsed(hs), 0)
  {
    hide Le, ParseSections, FindDynamic, Has, FileHeader.Image, SectionHeader.Image;
    FileReadBack(b, fh);
    SectionsReadBack(b, fh, hs, 0);
    assert Parsed(hs)[0..] == Parsed(hs);
  }

  lemma {:induction false} FirstFound(secs: seq<Section>, i: nat, d: nat)
    requires i <= d <= |secs| && forall j :: i <= j < d ==> secs[j].kind != 6
    ensures FindDynamic(secs, i) == FindDynamic(secs, d)
    decreases d - i
  {
    if i < d {
      FirstFound(secs, i + 1, d);
    }
  }

  /** A file without a section of type 6 (SHT_DYNAMIC) has nothing to edit. */
  lemma NoDynamicSection(b: seq<byte>, fh: FileHeader, hs: seq<SectionHeader>)
    requires IsElf(b, fh, hs) && forall i :: 0 <= i < |hs| ==> hs[i].kind != 6
    ensures Locate(b) == Ok(None) && Relocated(b) == Ok((b, 0))
  {
    hide IsElf, Locate;
    LocatesIn(b, fh, hs);
    FirstFound(Parsed(hs), 0, |hs|);
  }

  /**
   Otherwise the first section of type 6 counts: its table starts at its offset in the file and has its size,
   and the strings start at the offset of the section its link names, if that is of type 3 (SHT_STRTAB).
   */
  lemma DynamicSection(b: seq<byte>, fh: FileHeader, hs: seq<SectionHeader>, d: nat)
    requires IsElf(b, fh, hs) && d < |hs| && hs[d].kind == 6 && forall i :: 0 <= i < d ==> hs[i].kind != 6
    ensures Locate(b) ==
      if hs[d].link >= |hs| then Err(OutOfBuffer)
      else if hs[hs[d].link].kind != 3 then Err(NotElf64)
      else Ok(Some(Table(hs[d].offset, hs[d].size, hs[hs[d].link].offset)))
  {
    hide IsElf, Locate;
    LocatesIn(b, fh, hs);
    FirstFound(Parsed(hs), 0, d);
  }

  // ---- entries of the dynamic table ----------------------------------------------------------------

  datatype Entry = Entry(tag: nat, val: nat)
  {
    predicate Valid() { tag < Pow256(8) && val < Pow256(8) }

    function Image(): seq<byte> { Written(tag, 8) + Written(val, 8) }
  }

  lemma EntryReadBack(b: seq<byte>, at: nat, e: Entry)
    requires e.Valid() && Has(b, at, e.Image())
    ensures at + 16 <= |b| && Tag(b, at) == e.tag && Val(b, at) == e.val
  {
    Field(b, at, e.tag, 8, Written(e.val, 8));
    ReadBack(b, at + 8, e.val, 8);
  }

  /** A string of the table: these bytes and a zero. */
  lemma {:induction false} StringReadBack(b: seq<byte>, at: nat, s: seq<byte>)
    requires 0 !in s && Has(b, at, s + [0])
    ensures CString(b, at) == Some(s)
    decreases |s|
  {
    if s == [] {
      assert s + [0] == [0] + [];
      HasHead(b, at, 0, []);
    } else {
      assert s + [0] == [s[0]] + (s[1..] + [0]);
      HasHead(b, at, s[0], s[1..] + [0]);
      StringReadBack(b, at + 1, s[1..]);
      assert s == [s[0]] + s[1..];
    }
  }

  lemma HasHead(b: seq<byte>, at: nat, c: byte, rest: seq<byte>)
    requires Has(b, at, [c] + rest)
    ensures at < |b| && b[at] == c && Has(b, at + 1, rest)
  {
    HasBoth(b, at, [c], rest);
    assert b[at..at + 1] == [c];
    assert b[at] == b[at..at + 1][0];
  }

  /** An entry with tag 0 (DT_NULL) ends the table; one with a tag other than 1 and 14 stays, 5 (DT_STRTAB) among them. */
  lemma OtherTags(b: seq<byte>, t: Table, i: nat, e: Entry)
    requires e.Valid() && Has(b, t.At(i), e.Image()) && e.tag != 1 && e.tag != 14
    ensures ActionAt(b, t, i) == if e.tag == 0 then Stop else Skip
  {
    hide Tag, Val, Has, CString;
    EntryReadBack(b, t.At(i), e);
  }

  /** An entry with tag 1 (DT_NEEDED) or 14 (DT_SONAME) is moved exactly if its string is a path with a file name. */
  lemma NameTags(b: seq<byte>, t: Table, i: nat, e: Entry, s: seq<byte>)
    requires e.Valid() && Has(b, t.At(i), e.Image()) && (e.tag == 1 || e.tag == 14)
    requires 0 !in s && Has(b, t.strtab + e.val, s + [0]) && e.val + Delta(s) < Pow256(8)
    ensures ActionAt(b, t, i) ==
      if SLASH !in s then Skip
      else if s[|s| - 1] == SLASH then Fail(NoFileName)
      else Move(e.val + Delta(s))
  {
    hide *;
    EntryReadBack(b, t.At(i), e);
    StringReadBack(b, t.strtab + e.val, s);
    NoNameIsTrailingSlash(s);
    SlashMoves(s);
    NameAction(b, t, i, e, s);
  }

  lemma SlashMoves(s: seq<byte>)
    ensures [SLASH] in Chars(s) <==> SLASH in s
    ensures Delta(s) > 0 <==> SLASH in s
  {
    hide Chars;
    SlashIsAByte(s);
    DeltaLeadsToBasename(s);
  }

  /** What the loop does at an entry with these fields and this string. */
  lemma NameAction(b: seq<byte>, t: Table, i: nat, e: Entry, s: seq<byte>)
    requires t.At(i) + 16 <= |b| && Tag(b, t.At(i)) == e.tag && Val(b, t.At(i)) == e.val && (e.tag == 1 || e.tag == 14)
    requires CString(b, t.strtab + e.val) == Some(s) && e.val + Delta(s) < Pow256(8)
    ensures ActionAt(b, t, i) ==
      if [SLASH] !in Chars(s) then Skip
      else if Basename(s) == [] then Fail(NoFileName)
      else Move(e.val + Delta(s))
  {
    hide Tag, Val, CString, Chars, Basename, Delta, Pow256, Table.At;
  }

  /** Entries one after the other. */
  function Entries(es: seq<Entry>): (b: seq<byte>)
  {
    if es == [] then [] else Entries(es[..|es| - 1]) + es[|es| - 1].Image()
  }

  /** A table that is written out has all its entries where the loop looks for them. */
  lemma {:induction false} TableReadBack(b: seq<byte>, offset: nat, strtab: nat, es: seq<Entry>, i: nat)
    requires Has(b, offset, Entries(es)) && i < |es|
    ensures |Entries(es)| == 16 * |es| && Table(offset, 16 * |es|, strtab).Entries() == |es|
    ensures Has(b, Table(offset, 16 * |es|, strtab).At(i), es[i].Image())
  {
    hide Has, Written;
    var n := |es| - 1;
    EntriesLength(es);
    EntriesLength(es[..n]);
    HasBoth(b, offset, Entries(es[..n]), es[n].Image());
    if i < n {
      TableReadBack(b, offset, strtab, es[..n], i);
    }
  }

  lemma {:induction false} EntriesLength(es: seq<Entry>)
    ensures |Entries(es)| == 16 * |es|
  {
    if es != [] {
      EntriesLength(es[..|es| - 1]);
    }
  }
}
