/** UTF-8 from the side of the writer (RFC 3629, section 3), and what the decoder of the rewriter makes of it. */
module Utf8 {
  import opened Bytes
  import opened ElfStrings

  /** A Unicode scalar value. */
  predicate Scalar(c: nat) { c < 0x11_0000 && !(0xD800 <= c < 0xE000) }

  function Encoded(c: nat): (b: seq<byte>)
    requires Scalar(c)
    ensures 1 <= |b| <= 4
  {
    if c < 0x80 then [c]
    else if c < 0x800 then [0xC0 + c / 64, 0x80 + c % 64]
    else if c < 0x1_0000 then [0xE0 + c / 4096, 0x80 + c / 64 % 64, 0x80 + c % 64]
    else [0xF0 + c / 262144, 0x80 + c / 4096 % 64, 0x80 + c / 64 % 64, 0x80 + c % 64]
  }

  /** The character that was written at the front is the one decoded there. */
  lemma FrontDecoded(c: nat, rest: seq<byte>)
    requires Scalar(c)
    ensures CharLen(Encoded(c) + rest) == |Encoded(c)|
  {
    if c < 0x800 {
      FewBytes(c, rest);
    } else if c < 0x1_0000 {
      assert c / 64 / 64 == c / 4096 && c / 64 == 64 * (c / 4096) + c / 64 % 64;
      ThreeBytes(c / 4096, c / 64 % 64, c % 64, rest);
      assert Encoded(c) + rest == [0xE0 + c / 4096, 0x80 + c / 64 % 64, 0x80 + c % 64] + rest;
    } else {
      assert c / 4096 / 64 == c / 262144 && c / 4096 == 64 * (c / 262144) + c / 4096 % 64;
      FourBytes(c / 262144, c / 4096 % 64, c / 64 % 64, c % 64, rest);
      assert Encoded(c) + rest == [0xF0 + c / 262144, 0x80 + c / 4096 % 64, 0x80 + c / 64 % 64, 0x80 + c % 64] + rest;
    }
  }

  lemma FewBytes(c: nat, rest: seq<byte>)
    requires c < 0x800
    ensures CharLen(Encoded(c) + rest) == |Encoded(c)|
  {
  }

  lemma ThreeBytes(a: nat, b: nat, c: nat, rest: seq<byte>)
    requires a < 16 && b < 64 && c < 64 && (a == 0 ==> b >= 32) && (a == 13 ==> b < 32)
    ensures CharLen([0xE0 + a, 0x80 + b, 0x80 + c] + rest) == 3
  {
  }

  lemma FourBytes(a: nat, b: nat, c: nat, d: nat, rest: seq<byte>)
    requires a < 5 && b < 64 && c < 64 && d < 64 && (a == 0 ==> b >= 16) && (a == 4 ==> b < 16)
    ensures CharLen([0xF0 + a, 0x80 + b, 0x80 + c, 0x80 + d] + rest) == 4
  {
  }

  /** Whatever is decoded as one character of several bytes is one scalar value written out. */
  lemma SeveralBytes(s: seq<byte>) returns (c: nat)
    requires s != [] && CharLen(s) > 1
    ensures Scalar(c) && Encoded(c) == s[..CharLen(s)]
  {
    var k := CharLen(s);
    if k == 2 {
      c := (s[0] as int - 0xC0) * 64 + (s[1] as int - 0x80);
      assert s[..k] == [s[0], s[1]];
    } else if k == 3 {
      var a, b, d := s[0] as int - 0xE0, s[1] as int - 0x80, s[2] as int - 0x80;
      c := a * 4096 + b * 64 + d;
      SplitThree(a, b, d);
      assert s[..k] == [s[0], s[1], s[2]];
    } else {
      var a, b, d, e := s[0] as int - 0xF0, s[1] as int - 0x80, s[2] as int - 0x80, s[3] as int - 0x80;
      c := a * 262144 + b * 4096 + d * 64 + e;
      SplitFour(a, b, d, e);
      assert s[..k] == [s[0], s[1], s[2], s[3]];
    }
  }

  lemma SplitThree(a: nat, b: nat, d: nat)
    requires a < 16 && b < 64 && d < 64
    ensures var c := a * 4096 + b * 64 + d; c / 4096 == a && c / 64 % 64 == b && c % 64 == d
  {
  }

  lemma SplitFour(a: nat, b: nat, d: nat, e: nat)
    requires a < 5 && b < 64 && d < 64 && e < 64
    ensures var c := a * 262144 + b * 4096 + d * 64 + e;
      c / 262144 == a && c / 4096 % 64 == b && c / 64 % 64 == d && c % 64 == e
  {
    var m := a * 4096 + b * 64 + d;
    SplitThree(a, b, d);
    Halves(m, e);
  }

  lemma Halves(m: nat, e: nat)
    requires e < 64
    ensures var c := 64 * m + e; c / 64 == m && c % 64 == e && c / 4096 == m / 64 && c / 262144 == m / 4096
  {
  }

  /** So a byte that begins no written character is a character of its own, and only such a byte is. */
  lemma StrayByte(s: seq<byte>)
    requires s != [] && s[0] >= 0x80
    ensures CharLen(s) == 1 <==> forall c :: Scalar(c) ==> !(Encoded(c) <= s)
  {
    if CharLen(s) > 1 {
      var c := SeveralBytes(s);
    }
    forall c | Scalar(c) && Encoded(c) <= s ensures CharLen(s) > 1 {
      StartsWith(c, s);
    }
  }

  lemma StartsWith(c: nat, s: seq<byte>)
    requires Scalar(c) && Encoded(c) <= s
    ensures CharLen(s) == |Encoded(c)| && (|Encoded(c)| == 1 <==> s[0] < 0x80)
  {
    var rest := s[|Encoded(c)|..];
    assert s == Encoded(c) + rest;
    FrontDecoded(c, rest);
  }

  predicate Text(cs: seq<nat>) { forall i :: 0 <= i < |cs| ==> Scalar(cs[i]) }

  function Bytewise(cs: seq<nat>): (r: seq<seq<byte>>)
    requires Text(cs)
    ensures |r| == |cs| && forall i :: 0 <= i < |cs| ==> r[i] == Encoded(cs[i])
  {
    seq(|cs|, i requires 0 <= i < |cs| => Encoded(cs[i]))
  }

  /** A text that was written in UTF-8 is decoded to as many characters as were written. */
  lemma {:induction false} TextDecoded(cs: seq<nat>)
    requires Text(cs)
    ensures Chars(Encode(Bytewise(cs))) == Bytewise(cs)
  {
    if cs != [] {
      hide CharLen, Encoded;
      var rest := Encode(Bytewise(cs[1..]));
      assert Bytewise(cs)[1..] == Bytewise(cs[1..]);
      assert Encode(Bytewise(cs)) == Encoded(cs[0]) + rest;
      FrontDecoded(cs[0], rest);
      TextDecoded(cs[1..]);
    }
  }

  /** Of a path written in UTF-8 the rewriter counts the characters up to and including the last slash. */
  lemma DeltaCountsCharacters(dir: seq<nat>, name: seq<nat>)
    requires Text(dir) && Text(name) && 0x2F !in name
    ensures Delta(Encode(Bytewise(dir + [0x2F] + name))) == |dir| + 1
  {
    var cs := dir + [0x2F] + name;
    assert Text(cs);
    SlashAt(dir, name, Bytewise(cs));
    hide *;
    TextDecoded(cs);
    LastIs(Bytewise(cs), |dir|);
    DeltaIs(Encode(Bytewise(cs)), Bytewise(cs));
  }

  lemma SlashAt(dir: seq<nat>, name: seq<nat>, chars: seq<seq<byte>>)
    requires Text(dir) && Text(name) && 0x2F !in name && Text(dir + [0x2F] + name) && chars == Bytewise(dir + [0x2F] + name)
    ensures |dir| < |chars| && chars[|dir|] == [SLASH] && forall i :: |dir| < i < |chars| ==> chars[i] != [SLASH]
  {
    hide Encoded;
    var cs := dir + [0x2F] + name;
    SlashEncoded();
    forall i | |dir| < i < |chars| ensures chars[i] != [SLASH] {
      assert cs[i] == name[i - |dir| - 1];
      OnlySlash(cs[i]);
    }
  }

  lemma SlashEncoded()
    ensures Encoded(0x2F) == [SLASH]
  {
  }

  lemma OnlySlash(c: nat)
    requires Scalar(c) && c != 0x2F
    ensures Encoded(c) != [SLASH]
  {
  }

  lemma DeltaIs(s: seq<byte>, cs: seq<seq<byte>>)
    requires Chars(s) == cs
    ensures Delta(s) == LastSlash(cs)
  {
  }

  lemma LastIs(cs: seq<seq<byte>>, p: nat)
    requires p < |cs| && cs[p] == [SLASH] && forall i :: p < i < |cs| ==> cs[i] != [SLASH]
    ensures LastSlash(cs) == p + 1
  {
    var q := LastSlash(cs);
    assert [SLASH] in cs;
    InTail(cs, if q <= p then q else p, p);
  }

  lemma InTail(cs: seq<seq<byte>>, q: nat, p: nat)
    requires q <= p < |cs|
    ensures cs[p] in cs[q..]
  {
    assert cs[q..][p - q] == cs[p];
  }
}
