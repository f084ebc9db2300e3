/** Strings of a string table, as the rewriter sees them: decoded characters, counted. */
module ElfStrings {
  import opened Bytes

  const SLASH: byte := 0x2F

  predicate Cont(b: byte) { 0x80 <= b < 0xC0 }

  /**
   Bytes of the character at the front: a well-formed UTF-8 sequence is one character, and any byte that
   begins none is a character of its own (the surrogate escape).
   */
  function CharLen(s: seq<byte>): (k: nat)
    requires s != []
    ensures 1 <= k <= |s|
    ensures s[0] < 0x80 ==> k == 1
    ensures forall i :: 1 <= i < k ==> Cont(s[i])
  {
    if 0xC2 <= s[0] < 0xE0 && |s| >= 2 && Cont(s[1]) then 2
    else if 0xE0 <= s[0] < 0xF0 && |s| >= 3 && Cont(s[1]) && Cont(s[2])
      && (s[0] == 0xE0 ==> s[1] >= 0xA0) && (s[0] == 0xED ==> s[1] < 0xA0) then 3
    else if 0xF0 <= s[0] < 0xF5 && |s| >= 4 && Cont(s[1]) && Cont(s[2]) && Cont(s[3])
      && (s[0] == 0xF0 ==> s[1] >= 0x90) && (s[0] == 0xF4 ==> s[1] < 0x90) then 4
    else 1
  }

  /** The decoded characters, each as the bytes it came from. */
  function Chars(s: seq<byte>): (r: seq<seq<byte>>)
    ensures forall i :: 0 <= i < |r| ==> r[i] != []
  {
    if s == [] then [] else [s[..CharLen(s)]] + Chars(s[CharLen(s)..])
  }

  function Encode(cs: seq<seq<byte>>): seq<byte> {
    if cs == [] then [] else cs[0] + Encode(cs[1..])
  }

  lemma {:induction false} EncodeChars(s: seq<byte>)
    ensures Encode(Chars(s)) == s
  {
    if s != [] {
      var k := CharLen(s);
      EncodeChars(s[k..]);
      assert Chars(s)[1..] == Chars(s[k..]);
      assert s == s[..k] + s[k..];
    }
  }

  lemma {:induction false} EncodeJoin(a: seq<seq<byte>>, b: seq<seq<byte>>)
    ensures Encode(a + b) == Encode(a) + Encode(b)
  {
    if a == [] {
      assert a + b == b;
    } else {
      assert (a + b)[1..] == a[1..] + b;
      EncodeJoin(a[1..], b);
    }
  }

  /** `rsplit("/", 1)`: how many characters up to and including the last slash; none without one. */
  function LastSlash(cs: seq<seq<byte>>): (p: nat)
    ensures p <= |cs|
    ensures p == 0 <==> [SLASH] !in cs
    ensures p > 0 ==> cs[p - 1] == [SLASH] && [SLASH] !in cs[p..]
  {
    if cs == [] then 0
    else if cs[|cs| - 1] == [SLASH] then |cs|
    else
      var p := LastSlash(cs[..|cs| - 1]);
      assert p > 0 ==> cs[p..] == cs[..|cs| - 1][p..] + [cs[|cs| - 1]];
      p
  }

  /** How far the rewriter moves the offset of a path: the characters of its directory part. */
  function Delta(s: seq<byte>): nat { LastSlash(Chars(s)) }

  /** The file name of a path, as bytes: what follows its last slash. */
  function Basename(s: seq<byte>): seq<byte> { Encode(Chars(s)[Delta(s)..]) }

  /** Every character of the directory part is one byte. */
  ghost predicate PlainDirectory(s: seq<byte>) {
    forall i :: 0 <= i < Delta(s) ==> |Chars(s)[i]| == 1
  }

  lemma {:induction false} EncodeLength(cs: seq<seq<byte>>)
    requires forall i :: 0 <= i < |cs| ==> cs[i] != []
    ensures |Encode(cs)| >= |cs|
    ensures |Encode(cs)| == |cs| <==> forall i :: 0 <= i < |cs| ==> |cs[i]| == 1
  {
    if cs != [] {
      EncodeLength(cs[1..]);
      assert forall i :: 1 <= i < |cs| ==> cs[i] == cs[1..][i - 1];
      if forall i :: 0 <= i < |cs[1..]| ==> |cs[1..][i]| == 1 {
        assert forall i :: 1 <= i < |cs| ==> |cs[i]| == 1;
      }
    }
  }

  /**
   Adding the number of characters of the directory part to an offset leads to the file name exactly when
   every one of those characters is a single byte; otherwise it stops short of it.
   */
  lemma DeltaLeadsToBasename(s: seq<byte>)
    ensures Delta(s) <= |s|
    ensures Delta(s) == 0 <==> [SLASH] !in Chars(s)
    ensures s[Delta(s)..] == Basename(s) <==> PlainDirectory(s)
    ensures |s[Delta(s)..]| >= |Basename(s)|
  {
    var cs, p := Chars(s), Delta(s);
    hide Chars, Encode, LastSlash;
    EncodeChars(s);
    assert cs == cs[..p] + cs[p..];
    EncodeJoin(cs[..p], cs[p..]);
    EncodeLength(cs[..p]);
    PrefixDrop(Encode(cs[..p]), Basename(s), p);
    assert forall i :: 0 <= i < p ==> cs[..p][i] == cs[i];
  }

  lemma PrefixDrop(a: seq<byte>, b: seq<byte>, p: nat)
    requires p <= |a|
    ensures (a + b)[p..] == b <==> |a| == p
    ensures |(a + b)[p..]| >= |b|
  {
    if |a| == p {
      assert (a + b)[p..] == b;
    }
  }

  /** A directory part with a two-byte character: the offset stops at the slash instead of the name behind it. */
  lemma TwoByteDirectory()
    ensures var s: seq<byte> := [0xC3, 0xA9, SLASH, 0x78];
      Delta(s) == 2 && Basename(s) == [0x78] && s[Delta(s)..] == [SLASH, 0x78]
  {
    var s: seq<byte> := [0xC3, 0xA9, SLASH, 0x78];
    var name: seq<byte> := [0x78];
    assert s[..2] == [0xC3, 0xA9] && s[2..] == [SLASH, 0x78] && s[2..][1..] == name && name[1..] == [];
    assert CharLen(name) == 1 && name[..1] == name && CharLen(s[2..]) == 1 && s[2..][..1] == [SLASH];
    assert Chars(name) == [name] + Chars(name[1..]);
    assert Chars(name) == [name];
    assert Chars(s[2..]) == [[SLASH], name];
    var cs := Chars(s);
    assert cs == [s[..2], [SLASH], name];
    assert cs[..2] == [s[..2], [SLASH]] && cs[2..] == [name];
    assert Encode([name][1..]) == [];
  }

  // ---- in terms of bytes -------------------------------------------------------------------------

  /** A slash byte is a slash character wherever it stands, and nothing else is. */
  lemma {:induction false} SlashIsAByte(s: seq<byte>)
    ensures [SLASH] in Chars(s) <==> SLASH in s
  {
    if s != [] {
      var k := CharLen(s);
      SlashIsAByte(s[k..]);
      assert s == s[..k] + s[k..];
      assert Chars(s)[0] == s[..k];
      if s[0] == SLASH {
        assert s[..k] == [SLASH];
      } else {
        assert SLASH !in s[..k];
      }
    }
  }

  /** The file name has no slash. */
  lemma BasenameHasNoSlash(s: seq<byte>)
    ensures SLASH !in Basename(s)
  {
    var cs, p := Chars(s), Delta(s);
    SuffixChars(s, p);
    SlashIsAByte(Basename(s));
  }

  /** Decoding the bytes of a tail of the characters gives that tail. */
  lemma {:induction false} SuffixChars(s: seq<byte>, p: nat)
    requires p <= |Chars(s)|
    ensures Chars(Encode(Chars(s)[p..])) == Chars(s)[p..]
    decreases |s|
  {
    if p == 0 {
      EncodeChars(s);
      assert Chars(s)[0..] == Chars(s);
    } else {
      var k := CharLen(s);
      assert Chars(s)[p..] == Chars(s[k..])[p - 1..];
      SuffixChars(s[k..], p - 1);
    }
  }
}
