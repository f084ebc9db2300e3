/** What the in-place rewrite does to a well-placed dynamic table. */
module ElfTheorems {
  import opened Wrappers
  import opened Bytes
  import opened ElfStrings
  import opened ElfRelocate

  ghost predicate InDynamic(t: Table, k: nat) {
    t.offset <= k < t.At(t.Entries())
  }

  /** The value bytes of entry i. */
  ghost predicate InValue(t: Table, i: nat, k: nat) {
    t.At(i) + 8 <= k < t.At(i) + 16
  }

  /** Entry i names a string. */
  ghost predicate Names(b: seq<byte>, t: Table, i: nat) {
    t.At(i) + 16 <= |b| && (Tag(b, t.At(i)) == DT_NEEDED || Tag(b, t.At(i)) == DT_SONAME)
  }

  /** The string table ends in a zero at `end` - 1 and does not overlap the dynamic table, whose names are all in it. */
  ghost predicate Placed(b: seq<byte>, t: Table, end: nat) {
    && t.strtab < end <= |b| && b[end - 1] == 0
    && (t.At(t.Entries()) <= t.strtab || end <= t.offset)
    && (forall i :: 0 <= i < t.Entries() && Names(b, t, i) ==> t.strtab + Val(b, t.At(i)) < end)
  }

  // ---- what an entry depends on ------------------------------------------------------------------

  lemma {:induction false} CStringSame(a: seq<byte>, b: seq<byte>, at: nat, end: nat)
    requires at < end <= |a| && end <= |b| && a[end - 1] == 0
    requires forall k :: at <= k < end ==> a[k] == b[k]
    ensures CString(a, at) == CString(b, at)
    ensures CString(a, at).Some? && at + |CString(a, at).value| < end
    decreases end - at
  {
    if a[at] != 0 {
      CStringSame(a, b, at + 1, end);
    }
  }

  lemma Separate(t: Table, i: nat, j: nat)
    requires i != j
    ensures t.At(i) + 16 <= t.At(j) || t.At(j) + 16 <= t.At(i)
  {
  }

  /** Buffers that differ only in the value of another entry do the same at this one. */
  lemma OtherEntrySame(b: seq<byte>, c: seq<byte>, t: Table, end: nat, i: nat, j: nat)
    requires Placed(b, t, end) && i < t.Entries() && j < t.Entries() && i != j && |c| == |b|
    requires forall k :: 0 <= k < |b| && !InValue(t, j, k) ==> c[k] == b[k]
    ensures ActionAt(c, t, i) == ActionAt(b, t, i)
    ensures t.At(i) + 16 <= |b| ==> Tag(c, t.At(i)) == Tag(b, t.At(i)) && Val(c, t.At(i)) == Val(b, t.At(i))
  {
    hide ActionAt, CString, Le;
    Separate(t, i, j);
    var at := t.At(i);
    if at + 16 <= |b| {
      LeSame(b, c, at, 8);
      LeSame(b, c, at + 8, 8);
      if Names(b, t, i) {
        CStringSame(b, c, t.strtab + Val(b, at), end);
      }
    }
    SameAction(b, c, t, i);
  }

  lemma SameAction(b: seq<byte>, c: seq<byte>, t: Table, i: nat)
    requires |c| == |b|
    requires t.At(i) + 16 <= |b| ==> Tag(c, t.At(i)) == Tag(b, t.At(i)) && Val(c, t.At(i)) == Val(b, t.At(i))
    requires Names(b, t, i) ==> CString(c, t.strtab + Val(b, t.At(i))) == CString(b, t.strtab + Val(b, t.At(i)))
    ensures ActionAt(c, t, i) == ActionAt(b, t, i)
  {
    hide Chars, Delta, Basename, Le, CString;
  }

  /** Moving one entry to a later place of its own string keeps the table well placed. */
  lemma MovePlaced(b: seq<byte>, t: Table, end: nat, j: nat, v: nat)
    requires Placed(b, t, end) && j < t.Entries() && ActionAt(b, t, j) == Move(v)
    ensures v < Pow256(8) && t.At(j) + 16 <= |b|
    ensures Placed(PutLe(b, t.At(j) + 8, 8, v), t, end)
    ensures t.strtab + v < end
  {
    hide Chars, Basename, Le, PutLe, CString, Delta;
    var c := PutLe(b, t.At(j) + 8, 8, v);
    var at := t.strtab + Val(b, t.At(j));
    CStringSame(b, b, at, end);
    DeltaLeadsToBasename(CString(b, at).value);
    LeOfPut(b, t.At(j) + 8, 8, v);
    LeSame(b, c, t.At(j), 8);
    hide ActionAt;
    forall i | 0 <= i < t.Entries() && Names(c, t, i) ensures t.strtab + Val(c, t.At(i)) < end {
      if i != j {
        OtherEntrySame(b, c, t, end, i, j);
        assert Names(b, t, i);
      }
    }
  }

  // ---- the whole loop ----------------------------------------------------------------------------

  /** Where the loop stops, if nothing fails: at the first DT_NULL. */
  function End(b: seq<byte>, t: Table, i: nat): (e: nat)
    requires i <= t.Entries()
    ensures i <= e <= t.Entries()
    ensures forall j :: i <= j < e ==> ActionAt(b, t, j) != Stop
    ensures e < t.Entries() ==> ActionAt(b, t, e) == Stop
    decreases t.Entries() - i
  {
    if i == t.Entries() || ActionAt(b, t, i) == Stop then i else End(b, t, i + 1)
  }

  function Moves(b: seq<byte>, t: Table, i: nat, e: nat): nat
    requires i <= e
    decreases e - i
  {
    if i == e then 0 else (if ActionAt(b, t, i).Move? then 1 else 0) + Moves(b, t, i + 1, e)
  }

  /** Entries i to e have their new values and nothing else has changed. */
  ghost predicate Moved(b: seq<byte>, b': seq<byte>, t: Table, i: nat, e: nat) {
    && |b'| == |b|
    && (forall j :: i <= j < e ==> t.At(j) + 16 <= |b|)
    && (forall j :: i <= j < e && ActionAt(b, t, j).Move? ==> Val(b', t.At(j)) == ActionAt(b, t, j).val)
    && (forall k :: 0 <= k < |b| && (forall j :: i <= j < e && ActionAt(b, t, j).Move? ==> !InValue(t, j, k)) ==>
      b'[k] == b[k])
  }

  /** Actions, and so the stopping place and the count, of entries beyond a moved one are what they were. */
  lemma {:induction false} RestSame(b: seq<byte>, c: seq<byte>, t: Table, end: nat, j: nat, i: nat)
    requires Placed(b, t, end) && j < i <= t.Entries() && |c| == |b|
    requires forall k :: 0 <= k < |b| && !InValue(t, j, k) ==> c[k] == b[k]
    ensures End(c, t, i) == End(b, t, i) && Moves(c, t, i, End(c, t, i)) == Moves(b, t, i, End(b, t, i))
    decreases t.Entries() - i
  {
    hide ActionAt, Placed;
    if i < t.Entries() {
      OtherEntrySame(b, c, t, end, i, j);
      RestSame(b, c, t, end, j, i + 1);
    }
  }

  lemma MovedStep(b: seq<byte>, c: seq<byte>, b': seq<byte>, t: Table, end: nat, i: nat, e: nat, v: nat)
    requires Placed(b, t, end) && i < e <= t.Entries() && ActionAt(b, t, i) == Move(v)
    requires v < Pow256(8) && t.At(i) + 16 <= |b| && c == PutLe(b, t.At(i) + 8, 8, v)
    requires Moved(c, b', t, i + 1, e)
    ensures Moved(b, b', t, i, e)
  {
    hide ActionAt, Le, Placed, PutLe;
    forall j | i < j < e ensures ActionAt(c, t, j) == ActionAt(b, t, j) {
      OtherEntrySame(b, c, t, end, j, i);
    }
    LeOfPut(b, t.At(i) + 8, 8, v);
    forall k | t.At(i) + 8 <= k < t.At(i) + 16 ensures b'[k] == c[k] {
      forall j | i < j < e ensures !InValue(t, j, k) {
        Separate(t, i, j);
      }
    }
    LeSame(c, b', t.At(i) + 8, 8);
  }

  /** No entry from i up to the end fails. */
  ghost predicate Clean(b: seq<byte>, t: Table, i: nat, e: nat) {
    forall j :: i <= j < e ==> !ActionAt(b, t, j).Fail?
  }

  /** The outcome of entries i and on: success just when none fails, and then the right moves and their number. */
  ghost predicate Outcome(b: seq<byte>, t: Table, i: nat, e: nat, r: Result<(seq<byte>, nat), ElfError>) {
    && (r.Ok? <==> Clean(b, t, i, e))
    && (r.Ok? ==> i <= e && Moved(b, r.value.0, t, i, e) && r.value.1 == Moves(b, t, i, e))
  }

  lemma OutcomeMove(b: seq<byte>, c: seq<byte>, t: Table, end: nat, i: nat, v: nat,
                    rest: Result<(seq<byte>, nat), ElfError>, r: Result<(seq<byte>, nat), ElfError>)
    requires Placed(b, t, end) && i < t.Entries() && ActionAt(b, t, i) == Move(v)
    requires v < Pow256(8) && t.At(i) + 16 <= |b| && c == PutLe(b, t.At(i) + 8, 8, v)
    requires Outcome(c, t, i + 1, End(c, t, i + 1), rest)
    requires r == if rest.Ok? then Ok((rest.value.0, rest.value.1 + 1)) else rest
    ensures Outcome(b, t, i, End(b, t, i), r)
  {
    hide ActionAt, Placed, Moved, PutLe, Le;
    RestSame(b, c, t, end, i, i + 1);
    var e := End(b, t, i);
    forall j | i < j < e ensures ActionAt(c, t, j) == ActionAt(b, t, j) {
      OtherEntrySame(b, c, t, end, j, i);
    }
    if r.Ok? {
      MovedStep(b, c, r.value.0, t, end, i, e, v);
    }
  }

  lemma OutcomeSkip(b: seq<byte>, t: Table, i: nat, r: Result<(seq<byte>, nat), ElfError>)
    requires i < t.Entries() && ActionAt(b, t, i) == Skip && Outcome(b, t, i + 1, End(b, t, i + 1), r)
    ensures Outcome(b, t, i, End(b, t, i), r)
  {
    hide ActionAt, Moved;
    if r.Ok? {
      SkippedFirst(b, r.value.0, t, i, End(b, t, i));
    }
  }

  /** The loop succeeds exactly when no entry before the end fails, and then moves just those it should. */
  lemma {:induction false} RewriteMoves(b: seq<byte>, t: Table, end: nat, i: nat)
    requires Placed(b, t, end) && i <= t.Entries()
    ensures Outcome(b, t, i, End(b, t, i), RewriteFrom(b, t, i))
    decreases t.Entries() - i
  {
    hide Placed, Moved, ActionAt, PutLe, Le;
    if i == End(b, t, i) {
      NothingMoved(b, t, i);
    } else {
      match ActionAt(b, t, i)
      case Fail(_) => assert !Clean(b, t, i, End(b, t, i));
      case Skip =>
        RewriteMoves(b, t, end, i + 1);
        OutcomeSkip(b, t, i, RewriteFrom(b, t, i));
      case Move(v) =>
        MovePlaced(b, t, end, i, v);
        var c := PutLe(b, t.At(i) + 8, 8, v);
        RewriteMoves(c, t, end, i + 1);
        OutcomeMove(b, c, t, end, i, v, RewriteFrom(c, t, i + 1), RewriteFrom(b, t, i));
    }
  }

  lemma NothingMoved(b: seq<byte>, t: Table, i: nat)
    ensures Moved(b, b, t, i, i)
  {
  }

  lemma SkippedFirst(b: seq<byte>, b': seq<byte>, t: Table, i: nat, e: nat)
    requires i < e && ActionAt(b, t, i) == Skip && Moved(b, b', t, i + 1, e)
    ensures Moved(b, b', t, i, e)
  {
    hide Le, Chars;
    assert t.At(i) + 16 <= |b|;
    hide ActionAt;
  }

  // ---- what the names become ---------------------------------------------------------------------

  /** The string entry i names. */
  function NameOf(b: seq<byte>, t: Table, i: nat): Option<seq<byte>>
    requires t.At(i) + 16 <= |b|
  {
    CString(b, t.strtab + Val(b, t.At(i)))
  }

  lemma {:induction false} CStringSuffix(b: seq<byte>, at: nat, d: nat)
    requires CString(b, at).Some? && d <= |CString(b, at).value|
    ensures CString(b, at + d) == Some(CString(b, at).value[d..])
    decreases d
  {
    if d > 0 {
      var s, rest := CString(b, at).value, CString(b, at + 1).value;
      assert s == [b[at]] + rest;
      hide CString;
      CStringSuffix(b, at + 1, d - 1);
      assert s[d..] == rest[d - 1..];
    }
  }

  /** Every byte outside the dynamic table, the string table among them, is left alone. */
  lemma OutsideUntouched(b: seq<byte>, b': seq<byte>, t: Table, i: nat, e: nat, k: nat)
    requires Moved(b, b', t, i, e) && e <= t.Entries() && k < |b| && !InDynamic(t, k)
    ensures b'[k] == b[k]
  {
    hide ActionAt, Le;
    forall j | i <= j < e ensures !InValue(t, j, k) {
    }
  }

  /**
   The promise: after a successful run every name before the end of the table is the old one without its
   directory part, counted in characters. That is its file name exactly when the directory part has only
   one-byte characters; a name without a slash is unchanged.
   */
  lemma NamesBecomeBasenames(b: seq<byte>, t: Table, end: nat, i: nat)
    requires Placed(b, t, end) && RewriteFrom(b, t, 0).Ok? && i < End(b, t, 0) && Names(b, t, i)
    ensures var b' := RewriteFrom(b, t, 0).value.0;
      && |b'| == |b| && NameOf(b, t, i).Some?
      && var s := NameOf(b, t, i).value;
      && Delta(s) <= |s| && NameOf(b', t, i) == Some(s[Delta(s)..])
      && (NameOf(b', t, i) == Some(Basename(s)) <==> PlainDirectory(s))
      && (SLASH !in s ==> NameOf(b', t, i) == Some(s))
  {
    hide *;
    var e, b' := End(b, t, 0), RewriteFrom(b, t, 0).value.0;
    OutcomeOf(b, t, end);
    MovedLength(b, b', t, 0, e);
    NameInside(b, t, end, i);
    var at, s := t.strtab + Val(b, t.At(i)), NameOf(b, t, i).value;
    DeltaLeadsToBasename(s);
    SlashIsAByte(s);
    NewValue(b, b', t, end, i, e);
    CStringSuffix(b, at, Delta(s));
    StringsKept(b, b', t, end, 0, e, at + Delta(s));
    MovedName(b, b', t, i, s);
  }

  lemma OutcomeOf(b: seq<byte>, t: Table, end: nat)
    requires Placed(b, t, end) && RewriteFrom(b, t, 0).Ok?
    ensures var e := End(b, t, 0);
      e <= t.Entries() && Clean(b, t, 0, e) && Moved(b, RewriteFrom(b, t, 0).value.0, t, 0, e)
  {
    hide Moved, Clean, RewriteFrom, Placed;
    RewriteMoves(b, t, end, 0);
  }

  /** A name of a well-placed table ends inside the string table. */
  lemma NameInside(b: seq<byte>, t: Table, end: nat, i: nat)
    requires Placed(b, t, end) && i < t.Entries() && Names(b, t, i)
    ensures t.At(i) + 16 <= |b| && NameOf(b, t, i).Some?
    ensures var at := t.strtab + Val(b, t.At(i));
      NameOf(b, t, i) == CString(b, at) && t.strtab <= at && at + |NameOf(b, t, i).value| < end
  {
    hide Le;
    CStringSame(b, b, t.strtab + Val(b, t.At(i)), end);
  }

  lemma MovedName(b: seq<byte>, b': seq<byte>, t: Table, i: nat, s: seq<byte>)
    requires |b'| == |b| && t.At(i) + 16 <= |b| && NameOf(b, t, i) == Some(s) && Delta(s) <= |s|
    requires Val(b', t.At(i)) == Val(b, t.At(i)) + Delta(s)
    requires CString(b', t.strtab + Val(b, t.At(i)) + Delta(s)) == Some(s[Delta(s)..])
    ensures NameOf(b', t, i) == Some(s[Delta(s)..])
    ensures Delta(s) == 0 ==> NameOf(b', t, i) == Some(s)
  {
    hide Le, Delta;
    assert t.strtab + Val(b', t.At(i)) == t.strtab + Val(b, t.At(i)) + Delta(s);
  }

  /** An entry that was not moved keeps its value. */
  lemma ValueKept(b: seq<byte>, b': seq<byte>, t: Table, e: nat, i: nat)
    requires Moved(b, b', t, 0, e) && t.At(i) + 16 <= |b|
    requires i >= e || !ActionAt(b, t, i).Move?
    ensures Val(b', t.At(i)) == Val(b, t.At(i))
  {
    hide ActionAt, Le;
    forall k | t.At(i) + 8 <= k < t.At(i) + 16 ensures b'[k] == b[k] {
      forall j | 0 <= j < e && ActionAt(b, t, j).Move? ensures !InValue(t, j, k) {
        Separate(t, i, j);
      }
    }
    LeSame(b, b', t.At(i) + 8, 8);
  }

  /** The new value of an entry: further on by Delta of its name, which is nothing without a slash. */
  lemma NewValue(b: seq<byte>, b': seq<byte>, t: Table, end: nat, i: nat, e: nat)
    requires Placed(b, t, end) && e == End(b, t, 0) && Clean(b, t, 0, e) && Moved(b, b', t, 0, e)
    requires i < e && Names(b, t, i) && NameOf(b, t, i).Some?
    ensures Val(b', t.At(i)) == Val(b, t.At(i)) + Delta(NameOf(b, t, i).value)
  {
    hide Moved;
    ActionOfName(b, t, i);
    hide ActionAt, Delta, Le;
    assert !ActionAt(b, t, i).Fail?;
    if ActionAt(b, t, i).Move? {
      MovedValue(b, b', t, 0, e, i);
    } else {
      ValueKept(b, b', t, e, i);
    }
  }

  /** An entry that names a string fails, is skipped because its name has no directory part, or moves past that part. */
  lemma ActionOfName(b: seq<byte>, t: Table, i: nat)
    requires Names(b, t, i) && NameOf(b, t, i).Some?
    ensures var d, a := Delta(NameOf(b, t, i).value), ActionAt(b, t, i);
      a.Fail? || (a.Skip? && d == 0) || a == Move(Val(b, t.At(i)) + d)
  {
    DeltaLeadsToBasename(NameOf(b, t, i).value);
    hide Chars, Basename, Delta, CString, Le;
  }

  lemma MovedValue(b: seq<byte>, b': seq<byte>, t: Table, i: nat, e: nat, j: nat)
    requires Moved(b, b', t, i, e) && i <= j < e && ActionAt(b, t, j).Move?
    ensures t.At(j) + 16 <= |b| == |b'| && Val(b', t.At(j)) == ActionAt(b, t, j).val
  {
    hide ActionAt, Le;
  }

  /** Strings of the string table read the same afterwards. */
  lemma StringsKept(b: seq<byte>, b': seq<byte>, t: Table, end: nat, i: nat, e: nat, at: nat)
    requires Placed(b, t, end) && Moved(b, b', t, i, e) && e <= t.Entries() && t.strtab <= at < end
    ensures CString(b', at) == CString(b, at)
  {
    hide ActionAt, Le;
    forall k | at <= k < end ensures b'[k] == b[k] {
      OutsideUntouched(b, b', t, i, e, k);
    }
    CStringSame(b, b', at, end);
  }

  lemma OneChar()
    ensures Encode([[SLASH]]) == [SLASH]
  {
    assert Encode([]) == [];
  }

  /** The directory part of a path ends in the byte of its last slash. */
  lemma DirectoryEndsInSlash(s: seq<byte>)
    requires Delta(s) > 0
    ensures var a := Encode(Chars(s)[..Delta(s)]); s == a + Basename(s) && a != [] && a[|a| - 1] == SLASH
  {
    var cs, p := Chars(s), Delta(s);
    hide Chars, Encode;
    EncodeChars(s);
    assert cs == cs[..p] + cs[p..] && cs[..p] == cs[..p - 1] + [[SLASH]];
    EncodeJoin(cs[..p], cs[p..]);
    EncodeJoin(cs[..p - 1], [[SLASH]]);
    OneChar();
  }

  /** A path has no file name exactly when its last byte is a slash. */
  lemma NoNameIsTrailingSlash(s: seq<byte>)
    ensures Delta(s) > 0 && Basename(s) == [] <==> s != [] && s[|s| - 1] == SLASH
  {
    hide Chars, Encode, Basename, Delta;
    BasenameHasNoSlash(s);
    DeltaLeadsToBasename(s);
    SlashIsAByte(s);
    if Delta(s) > 0 {
      DirectoryEndsInSlash(s);
      assert Basename(s) != [] ==> s[|s| - 1] == Basename(s)[|Basename(s)| - 1];
    }
  }

  /** The run stops for want of a file name exactly at an entry whose name ends in a slash. */
  lemma TrailingSlashFails(b: seq<byte>, t: Table, end: nat, i: nat)
    requires Placed(b, t, end) && i < t.Entries() && Names(b, t, i)
    ensures NameOf(b, t, i).Some?
    ensures var s := NameOf(b, t, i).value;
      ActionAt(b, t, i) == Fail(NoFileName) <==> s != [] && s[|s| - 1] == SLASH
  {
    NameInside(b, t, end, i);
    var s := NameOf(b, t, i).value;
    NoNameIsTrailingSlash(s);
    DeltaLeadsToBasename(s);
    hide Chars, Basename, Delta, CString, Le, Placed;
  }

  // ---- running it again --------------------------------------------------------------------------

  /** Every path the loop reaches has a directory part of one-byte characters. */
  ghost predicate AllPlain(b: seq<byte>, t: Table) {
    forall i :: 0 <= i < End(b, t, 0) && Names(b, t, i) && NameOf(b, t, i).Some? ==> PlainDirectory(NameOf(b, t, i).value)
  }

  /** Tags stay, so the loop ends where it did and names what it named. */
  lemma TagsKept(b: seq<byte>, b': seq<byte>, t: Table, e: nat, i: nat)
    requires Moved(b, b', t, 0, e) && i < t.Entries() && t.At(i) + 16 <= |b|
    ensures Tag(b', t.At(i)) == Tag(b, t.At(i))
  {
    hide ActionAt, Le;
    forall k | t.At(i) <= k < t.At(i) + 8 ensures b'[k] == b[k] {
      forall j | 0 <= j < e && ActionAt(b, t, j).Move? ensures !InValue(t, j, k) {
        if j != i {
          Separate(t, i, j);
        }
      }
    }
    LeSame(b, b', t.At(i), 8);
  }

  /** After a run that met only plain directories every entry before the end is skipped. */
  lemma SkippedAfterwards(b: seq<byte>, t: Table, end: nat, i: nat)
    requires Placed(b, t, end) && RewriteFrom(b, t, 0).Ok? && AllPlain(b, t) && i < End(b, t, 0)
    ensures ActionAt(RewriteFrom(b, t, 0).value.0, t, i) == Skip
  {
    hide Le;
    var e, b' := End(b, t, 0), RewriteFrom(b, t, 0).value.0;
    RewriteMoves(b, t, end, 0);
    assert Moved(b, b', t, 0, e) && !ActionAt(b, t, i).Fail? && ActionAt(b, t, i) != Stop;
    TagsKept(b, b', t, e, i);
    if Names(b, t, i) {
      NamesBecomeBasenames(b, t, end, i);
      var s := NameOf(b, t, i).value;
      BasenameHasNoSlash(s);
      SlashIsAByte(Basename(s));
      hide Chars, Basename;
      assert NameOf(b', t, i) == Some(Basename(s));
    }
  }

  lemma StopIsNull(b: seq<byte>, t: Table, i: nat)
    ensures ActionAt(b, t, i) == Stop <==> t.At(i) + 16 <= |b| && Tag(b, t.At(i)) == DT_NULL
  {
    hide Chars, Delta, Basename, Le, CString;
  }

  /** The loop ends where it ended. */
  lemma {:induction false} EndKept(b: seq<byte>, b': seq<byte>, t: Table, i: nat)
    requires i <= End(b, t, 0) && Moved(b, b', t, 0, End(b, t, 0))
    ensures End(b', t, i) == End(b, t, 0)
    decreases End(b, t, 0) - i
  {
    hide ActionAt, Moved, Le, Tag;
    var e := End(b, t, 0);
    MovedLength(b, b', t, 0, e);
    StopIsNull(b, t, i);
    StopIsNull(b', t, i);
    if i < t.Entries() && t.At(i) + 16 <= |b| {
      TagsKept(b, b', t, e, i);
    }
    if i < e {
      EndKept(b, b', t, i + 1);
    }
  }

  /** The rewritten table is as well placed as the old one. */
  lemma PlacedAfter(b: seq<byte>, t: Table, end: nat)
    requires Placed(b, t, end) && RewriteFrom(b, t, 0).Ok?
    ensures Placed(RewriteFrom(b, t, 0).value.0, t, end)
  {
    hide ActionAt, Le, RewriteFrom, Chars, CString, Delta;
    var e, b' := End(b, t, 0), RewriteFrom(b, t, 0).value.0;
    OutcomeOf(b, t, end);
    MovedLength(b, b', t, 0, e);
    OutsideUntouched(b, b', t, 0, e, end - 1);
    forall i | 0 <= i < t.Entries() && Names(b', t, i) ensures t.strtab + Val(b', t.At(i)) < end {
      TagsKept(b, b', t, e, i);
      assert Names(b, t, i);
      if i < e {
        NameInside(b, t, end, i);
        DeltaLeadsToBasename(NameOf(b, t, i).value);
        NewValue(b, b', t, end, i, e);
      } else {
        ValueKept(b, b', t, e, i);
      }
    }
  }

  lemma {:induction false} AllSkipped(b: seq<byte>, t: Table, i: nat, e: nat)
    requires i <= e <= t.Entries()
    requires forall j :: i <= j < e ==> ActionAt(b, t, j) == Skip
    requires e < t.Entries() ==> ActionAt(b, t, e) == Stop
    ensures RewriteFrom(b, t, i) == Ok((b, 0))
    decreases e - i
  {
    hide ActionAt;
    if i < e {
      AllSkipped(b, t, i + 1, e);
    }
  }

  lemma {:induction false} SomeMove(b: seq<byte>, t: Table, i: nat, e: nat, j: nat)
    requires i <= j < e && ActionAt(b, t, j).Move?
    ensures Moves(b, t, i, e) > 0
    decreases j - i
  {
    hide ActionAt;
    if i < j {
      SomeMove(b, t, i + 1, e, j);
    }
  }

  /** A name that was not moved all the way still has a slash. */
  lemma ShortMoveLeavesSlash(s: seq<byte>)
    requires !PlainDirectory(s)
    ensures Delta(s) <= |s| && [SLASH] in Chars(s[Delta(s)..])
  {
    var cs, p := Chars(s), Delta(s);
    DeltaLeadsToBasename(s);
    DirectoryEndsInSlash(s);
    hide Chars, Encode;
    EncodeLength(cs[..p]);
    assert forall i :: 0 <= i < p ==> cs[..p][i] == cs[i];
    var a := Encode(cs[..p]);
    assert |a| > p && s[p..][|a| - 1 - p] == SLASH;
    SlashIsAByte(s[p..]);
  }

  /** An entry whose directory part was not plain is not skipped by a second run. */
  lemma NotSkippedAfterwards(b: seq<byte>, t: Table, end: nat, i: nat)
    requires Placed(b, t, end) && RewriteFrom(b, t, 0).Ok? && i < End(b, t, 0)
    requires Names(b, t, i) && NameOf(b, t, i).Some? && !PlainDirectory(NameOf(b, t, i).value)
    ensures ActionAt(RewriteFrom(b, t, 0).value.0, t, i) != Skip
  {
    hide Le, Chars, Basename, CString, Delta, RewriteFrom, PlainDirectory;
    var e, b' := End(b, t, 0), RewriteFrom(b, t, 0).value.0;
    OutcomeOf(b, t, end);
    MovedLength(b, b', t, 0, e);
    TagsKept(b, b', t, e, i);
    NamesBecomeBasenames(b, t, end, i);
    ShortMoveLeavesSlash(NameOf(b, t, i).value);
  }

  /** Running the loop a second time changes nothing, exactly when every directory part was plain. */
  lemma SecondRunIdle(b: seq<byte>, t: Table, end: nat)
    requires Placed(b, t, end) && RewriteFrom(b, t, 0).Ok?
    ensures var b' := RewriteFrom(b, t, 0).value.0;
      RewriteFrom(b', t, 0) == Ok((b', 0)) <==> AllPlain(b, t)
  {
    hide ActionAt, Placed, RewriteFrom, Moved, PlainDirectory;
    var e, b' := End(b, t, 0), RewriteFrom(b, t, 0).value.0;
    OutcomeOf(b, t, end);
    EndKept(b, b', t, 0);
    if AllPlain(b, t) {
      forall j | 0 <= j < e ensures ActionAt(b', t, j) == Skip {
        SkippedAfterwards(b, t, end, j);
      }
      AllSkipped(b', t, 0, e);
    } else {
      var i :| 0 <= i < e && Names(b, t, i) && NameOf(b, t, i).Some? && !PlainDirectory(NameOf(b, t, i).value);
      NotSkippedAfterwards(b, t, end, i);
      PlacedAfter(b, t, end);
      RewriteMoves(b', t, end, 0);
      if ActionAt(b', t, i).Move? {
        SomeMove(b', t, 0, e, i);
      }
    }
  }

  // ---- the whole file ----------------------------------------------------------------------------

  /** What `make_relocatable` makes of a file. */
  function Relocated(file: seq<byte>): Result<(seq<byte>, nat), ElfError> {
    match Locate(file)
    case Err(e) => Err(e)
    case Ok(None) => Ok((file, 0))
    case Ok(Some(t)) => RewriteFrom(file, t, 0)
  }

  lemma {:induction false} NoMoveNoChange(b: seq<byte>, t: Table, i: nat)
    requires i <= t.Entries() && RewriteFrom(b, t, i).Ok? && RewriteFrom(b, t, i).value.1 == 0
    ensures RewriteFrom(b, t, i).value.0 == b
    decreases t.Entries() - i
  {
    hide ActionAt, PutLe;
    if i < t.Entries() && ActionAt(b, t, i) == Skip {
      NoMoveNoChange(b, t, i + 1);
    }
  }

  /** `make_relocatable`: the file is rewritten whole, only on success and only if something changed. */
  method MakeRelocatable(file: seq<byte>) returns (file': seq<byte>, r: Result<nat, ElfError>)
    ensures Relocated(file).Err? ==> r == Err(Relocated(file).error) && file' == file
    ensures Relocated(file).Ok? ==> r == Ok(Relocated(file).value.1) && file' == Relocated(file).value.0
  {
    hide Locate, RewriteFrom;
    file' := file;
    var located := Locate(file);
    match located {
      case Err(e) => return file, Err(e);
      case Ok(None) => return file, Ok(0);
      case Ok(Some(t)) =>
        var buf := new byte[|file|](k requires 0 <= k < |file| => file[k]);
        assert buf[..] == file;
        var changed := RewriteTable(buf, t);
        if changed.Ok? && changed.value > 0 {
          file' := buf[..];
        } else if changed.Ok? {
          NoMoveNoChange(file, t, 0);
        }
        r := changed;
    }
  }

  /** The bytes the table is located by: the file header and the section headers. */
  ghost predicate InHeaders(b: seq<byte>, k: nat) {
    || k < 0x3E
    || (|b| >= 0x3E && exists i :: 0 <= i < Le(b, 0x3C, 2) && InHeader(HeaderAt(Le(b, 0x28, 8), Le(b, 0x3A, 2), i), k))
  }

  ghost predicate InHeader(at: nat, k: nat) { at <= k < at + 0x2C }

  lemma SectionSame(b: seq<byte>, c: seq<byte>, at: nat)
    requires |b| == |c| && forall k :: 0 <= k < |b| && InHeader(at, k) ==> c[k] == b[k]
    ensures ParseSection(c, at) == ParseSection(b, at)
  {
    hide Le;
    if at + 0x2C <= |b| {
      LeSame(b, c, at + 0x04, 4);
      LeSame(b, c, at + 0x18, 8);
      LeSame(b, c, at + 0x20, 8);
      LeSame(b, c, at + 0x28, 4);
    }
  }

  lemma {:induction false} SectionsSame(b: seq<byte>, c: seq<byte>, shoff: nat, entsize: nat, n: nat, i: nat)
    requires i <= n && |b| == |c|
    requires forall j, k :: i <= j < n && 0 <= k < |b| && InHeader(HeaderAt(shoff, entsize, j), k) ==> c[k] == b[k]
    ensures ParseSections(c, shoff, entsize, n, i) == ParseSections(b, shoff, entsize, n, i)
    decreases n - i
  {
    hide ParseSection;
    if i < n {
      SectionSame(b, c, HeaderAt(shoff, entsize, i));
      SectionsSame(b, c, shoff, entsize, n, i + 1);
    }
  }

  /** A buffer with the same headers has its table in the same place. */
  lemma LocateSame(b: seq<byte>, c: seq<byte>)
    requires |b| == |c| && forall k :: 0 <= k < |b| && InHeaders(b, k) ==> c[k] == b[k]
    ensures Locate(c) == Locate(b)
  {
    hide Le, ParseSections;
    assert |b| >= 4 ==> b[..4] == c[..4];
    if |b| >= 0x3E {
      LeSame(b, c, 0x28, 8);
      LeSame(b, c, 0x3A, 2);
      LeSame(b, c, 0x3C, 2);
      var shoff, entsize, n := Le(b, 0x28, 8), Le(b, 0x3A, 2), Le(b, 0x3C, 2);
      forall j, k | 0 <= j < n && 0 <= k < |b| && InHeader(HeaderAt(shoff, entsize, j), k) ensures c[k] == b[k] {
        assert InHeaders(b, k);
      }
      SectionsSame(b, c, shoff, entsize, n, 0);
    }
  }

  /**
   A second run of the tool leaves a successfully rewritten file alone, exactly when every directory part was
   plain, provided the dynamic table is well placed and overlaps no header.
   */
  lemma Idempotent(file: seq<byte>, t: Table, end: nat)
    requires Locate(file) == Ok(Some(t)) && Placed(file, t, end) && Relocated(file).Ok?
    requires forall k :: 0 <= k < |file| && InHeaders(file, k) ==> !InDynamic(t, k)
    ensures Relocated(Relocated(file).value.0) == Ok((Relocated(file).value.0, 0)) <==> AllPlain(file, t)
  {
    hide Locate, RewriteFrom, Placed, AllPlain, InHeaders, InDynamic, Moved;
    var file' := Relocated(file).value.0;
    RewriteMoves(file, t, end, 0);
    assert Moved(file, file', t, 0, End(file, t, 0));
    assert |file'| == |file| by {
      MovedLength(file, file', t, 0, End(file, t, 0));
    }
    forall k | 0 <= k < |file| && InHeaders(file, k) ensures file'[k] == file[k] {
      OutsideUntouched(file, file', t, 0, End(file, t, 0), k);
    }
    LocateSame(file, file');
    SecondRunIdle(file, t, end);
  }

  lemma MovedLength(b: seq<byte>, b': seq<byte>, t: Table, i: nat, e: nat)
    requires Moved(b, b', t, i, e)
    ensures |b'| == |b|
  {
  }
}
