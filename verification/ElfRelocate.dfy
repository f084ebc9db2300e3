/** Making an ELF artefact relocatable: string offsets of its dynamic table are moved to file names, in place. */
module ElfRelocate {
  import opened Wrappers
  import opened Bytes
  import opened ElfStrings

  const DT_NULL: nat := 0
  const DT_NEEDED: nat := 1
  const DT_SONAME: nat := 14
  const SHT_STRTAB: nat := 3
  const SHT_DYNAMIC: nat := 6

  /** Not an ELF this tool edits; a path without a file name; or a read or write outside the buffer. */
  datatype ElfError = NotElf64 | NoFileName | OutOfBuffer

  datatype Section = Section(kind: nat, offset: nat, size: nat, link: nat)

  /** Where the dynamic table is, and where the string table it indexes starts. */
  datatype Table = Table(offset: nat, size: nat, strtab: nat) {
    function Entries(): nat { size / 16 }

    /** Where entry i is. */
    function At(i: nat): nat { offset + 16 * i }
  }

  // ---- locating the table ------------------------------------------------------------------------

  function ParseSection(b: seq<byte>, at: nat): Result<Section, ElfError> {
    if at + 0x2C <= |b| then
      Ok(Section(Le(b, at + 0x04, 4), Le(b, at + 0x18, 8), Le(b, at + 0x20, 8), Le(b, at + 0x28, 4)))
    else Err(OutOfBuffer)
  }

  /** Where section header i is. */
  function HeaderAt(shoff: nat, entsize: nat, i: nat): nat { shoff + i * entsize }

  /** Headers i to n of the section table. */
  function ParseSections(b: seq<byte>, shoff: nat, entsize: nat, n: nat, i: nat): Result<seq<Section>, ElfError>
    requires i <= n
    decreases n - i
  {
    if i == n then Ok([])
    else match ParseSection(b, HeaderAt(shoff, entsize, i))
      case Err(e) => Err(e)
      case Ok(s) =>
        match ParseSections(b, shoff, entsize, n, i + 1)
        case Err(e) => Err(e)
        case Ok(rest) => Ok([s] + rest)
  }

  /** `_sections`: magic, class and byte order are checked before anything else is read. */
  function Sections(b: seq<byte>): Result<seq<Section>, ElfError> {
    if |b| < 4 || b[..4] != [0x7F, 0x45, 0x4C, 0x46] then Err(NotElf64)
    else if |b| < 5 then Err(OutOfBuffer)
    else if b[4] != 2 then Err(NotElf64)
    else if |b| < 6 then Err(OutOfBuffer)
    else if b[5] != 1 then Err(NotElf64)
    else if |b| < 0x3E then Err(OutOfBuffer)
    else ParseSections(b, Le(b, 0x28, 8), Le(b, 0x3A, 2), Le(b, 0x3C, 2), 0)
  }

  /** `_dynamic`: the first dynamic section, and the string table its link names. */
  function Locate(b: seq<byte>): Result<Option<Table>, ElfError> {
    match Sections(b)
    case Err(e) => Err(e)
    case Ok(secs) => FindDynamic(secs, 0)
  }

  function FindDynamic(secs: seq<Section>, i: nat): Result<Option<Table>, ElfError>
    requires i <= |secs|
    decreases |secs| - i
  {
    if i == |secs| then Ok(None)
    else if secs[i].kind != SHT_DYNAMIC then FindDynamic(secs, i + 1)
    else if secs[i].link >= |secs| then Err(OutOfBuffer)
    else if secs[secs[i].link].kind != SHT_STRTAB then Err(NotElf64)
    else Ok(Some(Table(secs[i].offset, secs[i].size, secs[secs[i].link].offset)))
  }

  // ---- one entry ---------------------------------------------------------------------------------

  /** The bytes from `at` up to the next zero; none if there is no zero. */
  function CString(b: seq<byte>, at: nat): (s: Option<seq<byte>>)
    ensures s.Some? ==> at + |s.value| < |b| && s.value == b[at..at + |s.value|] && b[at + |s.value|] == 0 && 0 !in s.value
    decreases if at < |b| then |b| - at else 0
  {
    if at >= |b| then None
    else if b[at] == 0 then Some([])
    else match CString(b, at + 1)
      case None => None
      case Some(rest) =>
        assert b[at..at + 1 + |rest|] == [b[at]] + rest;
        Some([b[at]] + rest)
  }

  function Tag(b: seq<byte>, at: nat): nat
    requires at + 16 <= |b|
  {
    Le(b, at, 8)
  }

  function Val(b: seq<byte>, at: nat): nat
    requires at + 16 <= |b|
  {
    Le(b, at + 8, 8)
  }

  /** What the loop does at one entry. */
  datatype Action = Stop | Skip | Move(val: nat) | Fail(error: ElfError)

  function ActionAt(b: seq<byte>, t: Table, i: nat): Action {
    var at := t.At(i);
    if at + 16 > |b| then Fail(OutOfBuffer)
    else if Tag(b, at) == DT_NULL then Stop
    else if Tag(b, at) != DT_NEEDED && Tag(b, at) != DT_SONAME then Skip
    else match CString(b, t.strtab + Val(b, at))
      case None => Fail(OutOfBuffer)
      case Some(s) =>
        if [SLASH] !in Chars(s) then Skip
        else if Basename(s) == [] then Fail(NoFileName)
        else if Val(b, at) + Delta(s) >= Pow256(8) then Fail(OutOfBuffer)
        else Move(Val(b, at) + Delta(s))
  }

  /** The buffer and the number of changes after entries i and on; or the first failure. */
  function RewriteFrom(b: seq<byte>, t: Table, i: nat): Result<(seq<byte>, nat), ElfError>
    requires i <= t.Entries()
    decreases t.Entries() - i
  {
    if i == t.Entries() then Ok((b, 0))
    else match ActionAt(b, t, i)
      case Stop => Ok((b, 0))
      case Fail(e) => Err(e)
      case Skip => RewriteFrom(b, t, i + 1)
      case Move(v) =>
        match RewriteFrom(PutLe(b, t.At(i) + 8, 8, v), t, i + 1)
        case Err(e) => Err(e)
        case Ok((b', n)) => Ok((b', n + 1))
  }

  // ---- the loop, in place ------------------------------------------------------------------------

  /** Packs the n-byte little-endian v at `at`. */
  method Pack(buf: array<byte>, at: nat, n: nat, v: nat)
    requires at + n <= buf.Length
    modifies buf
    ensures buf[..] == PutLe(old(buf[..]), at, n, v)
    decreases n
  {
    var k, rest := 0, v;
    while k < n
      invariant k <= n
      invariant PutLe(buf[..], at + k, n - k, rest) == PutLe(old(buf[..]), at, n, v)
    {
      ghost var now := buf[..];
      buf[at + k] := rest % 256;
      assert buf[..] == now[at + k := rest % 256];
      k, rest := k + 1, rest / 256;
    }
  }

  /** The rewriting loop of `make_relocatable`, on the buffer it was handed. */
  method RewriteTable(buf: array<byte>, t: Table) returns (r: Result<nat, ElfError>)
    modifies buf
    ensures RewriteFrom(old(buf[..]), t, 0).Err? ==> r == Err(RewriteFrom(old(buf[..]), t, 0).error)
    ensures RewriteFrom(old(buf[..]), t, 0).Ok? ==>
      r == Ok(RewriteFrom(old(buf[..]), t, 0).value.1) && buf[..] == RewriteFrom(old(buf[..]), t, 0).value.0
  {
    hide ActionAt, PutLe, Table.Entries;
    var changed, i := 0, 0;
    ghost var whole := RewriteFrom(buf[..], t, 0);
    while i < t.Entries()
      invariant i <= t.Entries()
      invariant After(whole, RewriteFrom(buf[..], t, i), changed)
    {
      var action := ActionAt(buf[..], t, i);
      match action {
        case Stop => break;
        case Fail(e) => return Err(e);
        case Skip =>
        case Move(v) =>
          MoveFits(buf[..], t, i);
          Pack(buf, t.At(i) + 8, 8, v);
          changed := changed + 1;
      }
      i := i + 1;
    }
    return Ok(changed);
  }

  /** The whole run, given what is left of it and the changes made so far. */
  ghost predicate After(whole: Result<(seq<byte>, nat), ElfError>, left: Result<(seq<byte>, nat), ElfError>, changed: nat) {
    && (left.Err? ==> whole == Err(left.error))
    && (left.Ok? ==> whole == Ok((left.value.0, left.value.1 + changed)))
  }

  lemma MoveFits(b: seq<byte>, t: Table, i: nat)
    requires ActionAt(b, t, i).Move?
    ensures t.At(i) + 16 <= |b|
  {
  }
}
