/** PKCE verifiers and challenges: the client's own base64url encoder against the encoding of RFC 4648
    section 5 (no padding), and the S256 challenge of RFC 7636 on both sides. Hashing is a parameter. */
module Pkce {
  import opened Collections

  const VERIFIER_BYTES: nat := 32

  const UPPER := "ABCDEFGHIJKLMNOPQRSTUVWXYZ"

  const LOWER := "abcdefghijklmnopqrstuvwxyz"

  const DIGITS := "0123456789"

  /** The alphabet, in the order of its values. */
  const B64URL := UPPER + LOWER + DIGITS + "-_"

  /** The value of a character of the alphabet, 64 for any other character. */
  function ValueOf(c: char): nat {
    if 'A' <= c <= 'Z' then c as int - 'A' as int
    else if 'a' <= c <= 'z' then c as int - 'a' as int + 26
    else if '0' <= c <= '9' then c as int - '0' as int + 52
    else if c == '-' then 62
    else if c == '_' then 63
    else 64
  }

  predicate IsUnreserved(c: char) {
    'A' <= c <= 'Z' || 'a' <= c <= 'z' || '0' <= c <= '9' || c in {'-', '.', '_', '~'}
  }

  /** Upper case, lower case, digits, the minus and the underscore, in this order. */
  lemma AlphabetInOrder(v: nat)
    requires v < 64
    ensures |B64URL| == 64
    ensures v < 26 ==> B64URL[v] as int == 'A' as int + v
    ensures 26 <= v < 52 ==> B64URL[v] as int == 'a' as int + (v - 26)
    ensures 52 <= v < 62 ==> B64URL[v] as int == '0' as int + (v - 52)
    ensures (v == 62 ==> B64URL[v] == '-') && (v == 63 ==> B64URL[v] == '_')
  {
    assert |UPPER| == 26 && |LOWER| == 26 && |DIGITS| == 10;
    if v < 26 {
      UpperInOrder(v);
      assert B64URL[v] == UPPER[v];
    } else if v < 52 {
      LowerInOrder(v - 26);
      assert B64URL[v] == LOWER[v - 26];
    } else if v < 62 {
      DigitsInOrder(v - 52);
      assert B64URL[v] == DIGITS[v - 52];
    } else {
      assert B64URL[v] == "-_"[v - 62];
    }
  }

  lemma AlphabetIsInvertible(v: nat)
    requires v < 64
    ensures |B64URL| == 64 && ValueOf(B64URL[v]) == v && IsUnreserved(B64URL[v])
  {
    AlphabetInOrder(v);
  }

  lemma DigitsInOrder(k: nat)
    requires k < 10
    ensures |DIGITS| == 10 && DIGITS[k] == ('0' as int + k) as char
  {
  }

  lemma UpperInOrder(k: nat)
    requires k < 26
    ensures |UPPER| == 26 && UPPER[k] == ('A' as int + k) as char
  {
  }

  lemma LowerInOrder(k: nat)
    requires k < 26
    ensures |LOWER| == 26 && LOWER[k] == ('a' as int + k) as char
  {
  }

  function CharOf(v: bv8): char
    requires v < 64
  {
    AlphabetIsInvertible(v as nat);
    B64URL[v as nat]
  }

  function Chars(vs: seq<bv8>): string
    requires forall i :: 0 <= i < |vs| ==> vs[i] < 64
  {
    if vs == [] then "" else [CharOf(vs[0])] + Chars(vs[1..])
  }

  // ---- the encoder's own arithmetic: up to four values from up to three bytes

  function First(b0: bv8): (v: bv8)
    ensures v < 64
  {
    b0 >> 2
  }

  function Second(b0: bv8, b1: bv8): (v: bv8)
    ensures v < 64
  {
    ((b0 & 0x03) << 4) | (b1 >> 4)
  }

  function Third(b1: bv8, b2: bv8): (v: bv8)
    ensures v < 64
  {
    ((b1 & 0x0f) << 2) | (b2 >> 6)
  }

  function Fourth(b2: bv8): (v: bv8)
    ensures v < 64
  {
    b2 & 0x3f
  }

  function Values(bytes: seq<bv8>): (vs: seq<bv8>)
    ensures forall i :: 0 <= i < |vs| ==> vs[i] < 64
  {
    if bytes == [] then []
    else if |bytes| == 1 then [First(bytes[0]), Second(bytes[0], 0)]
    else if |bytes| == 2 then [First(bytes[0]), Second(bytes[0], bytes[1]), Third(bytes[1], 0)]
    else
      [First(bytes[0]), Second(bytes[0], bytes[1]), Third(bytes[1], bytes[2]), Fourth(bytes[2])] + Values(bytes[3..])
  }

  function Encode(bytes: seq<bv8>): string {
    Chars(Values(bytes))
  }

  lemma {:induction false} CharsAppend(vs: seq<bv8>, ws: seq<bv8>)
    requires forall i :: 0 <= i < |vs| ==> vs[i] < 64
    requires forall i :: 0 <= i < |ws| ==> ws[i] < 64
    ensures Chars(vs + ws) == Chars(vs) + Chars(ws)
  {
    if vs == [] {
      assert vs + ws == ws;
    } else {
      assert (vs + ws)[0] == vs[0] && (vs + ws)[1..] == vs[1..] + ws;
      CharsAppend(vs[1..], ws);
    }
  }

  lemma CharsPush(vs: seq<bv8>, v: bv8)
    requires forall i :: 0 <= i < |vs| ==> vs[i] < 64
    requires v < 64
    ensures Chars(vs + [v]) == Chars(vs) + [CharOf(v)]
  {
    hide CharOf;
    CharsAppend(vs, [v]);
    assert [v][1..] == [];
    assert Chars([v]) == [CharOf(v)] + Chars([]);
  }

  method Base64UrlEncode(bytes: seq<bv8>) returns (out: string)
    ensures out == Encode(bytes)
  {
    hide CharOf, First, Second, Third, Fourth;
    out := "";
    var i := 0;
    while i < |bytes|
      decreases |bytes| - i
      invariant 0 <= i
      invariant out + Encode(Rest(bytes, i)) == Encode(bytes)
    {
      var b0 := bytes[i];
      var b1 := if i + 1 < |bytes| then Some(bytes[i + 1]) else None;
      var b2 := if i + 2 < |bytes| then Some(bytes[i + 2]) else None;
      EncodeStep(bytes, i);
      hide Encode, Rest;
      ghost var before := out;
      var c0 := CharOf(First(b0));
      var c1 := CharOf(Second(b0, if b1.Some? then b1.value else 0));
      out := out + [c0];
      out := out + [c1];
      assert out == before + [c0, c1];
      if b1.None? {
        return;
      }
      var c2 := CharOf(Third(b1.value, if b2.Some? then b2.value else 0));
      out := out + [c2];
      assert out == before + [c0, c1, c2];
      if b2.None? {
        return;
      }
      var c3 := CharOf(Fourth(b2.value));
      out := out + [c3];
      assert out == before + [c0, c1, c2, c3];
      i := i + 3;
      AppendMore(before, [c0, c1, c2, c3], Encode(Rest(bytes, i)));
    }
    assert Rest(bytes, i) == [] && Encode([]) == "";
  }

  lemma AppendMore(s: string, t: string, u: string)
    ensures (s + t) + u == s + (t + u)
  {
  }

  function Rest(bytes: seq<bv8>, i: nat): seq<bv8> {
    if i <= |bytes| then bytes[i..] else []
  }

  lemma CharsOfGroup(v0: bv8, v1: bv8, v2: bv8, v3: bv8)
    requires v0 < 64 && v1 < 64 && v2 < 64 && v3 < 64
    ensures Chars([v0, v1]) == [CharOf(v0), CharOf(v1)]
    ensures Chars([v0, v1, v2]) == [CharOf(v0), CharOf(v1), CharOf(v2)]
    ensures Chars([v0, v1, v2, v3]) == [CharOf(v0), CharOf(v1), CharOf(v2), CharOf(v3)]
  {
    hide CharOf;
    CharsPush([], v0);
    CharsPush([v0], v1);
    CharsPush([v0, v1], v2);
    CharsPush([v0, v1, v2], v3);
    assert [] + [v0] == [v0] && [v0] + [v1] == [v0, v1];
    assert [v0, v1] + [v2] == [v0, v1, v2] && [v0, v1, v2] + [v3] == [v0, v1, v2, v3];
  }

  /** What one round of the loop appends, for each number of bytes that may be left. */
  lemma EncodeStep(bytes: seq<bv8>, i: nat)
    requires i < |bytes|
    ensures |bytes| == i + 1 ==>
              Encode(Rest(bytes, i)) == [CharOf(First(bytes[i])), CharOf(Second(bytes[i], 0))]
    ensures |bytes| == i + 2 ==>
              Encode(Rest(bytes, i))
              == [CharOf(First(bytes[i])), CharOf(Second(bytes[i], bytes[i + 1])), CharOf(Third(bytes[i + 1], 0))]
    ensures |bytes| >= i + 3 ==>
              Encode(Rest(bytes, i))
              == [CharOf(First(bytes[i])), CharOf(Second(bytes[i], bytes[i + 1])),
                  CharOf(Third(bytes[i + 1], bytes[i + 2])), CharOf(Fourth(bytes[i + 2]))]
                 + Encode(Rest(bytes, i + 3))
  {
    hide CharOf, First, Second, Third, Fourth;
    var rest := bytes[i..];
    hide Chars;
    if |rest| == 1 {
      CharsOfGroup(First(rest[0]), Second(rest[0], 0), 0, 0);
    } else if |rest| == 2 {
      CharsOfGroup(First(rest[0]), Second(rest[0], rest[1]), Third(rest[1], 0), 0);
    } else {
      var v0, v1, v2, v3 := First(rest[0]), Second(rest[0], rest[1]), Third(rest[1], rest[2]), Fourth(rest[2]);
      assert rest[3..] == bytes[i + 3..];
      CharsOfGroup(v0, v1, v2, v3);
      CharsAppend([v0, v1, v2, v3], Values(rest[3..]));
    }
  }

  // ---- the encoding of RFC 4648: the bits of all bytes in order, six at a time, padded with zeros

  /** Bit `p` of a byte, the most significant first. */
  predicate BitOf(b: bv8, p: nat) {
    if p == 0 then b & 0x80 != 0
    else if p == 1 then b & 0x40 != 0
    else if p == 2 then b & 0x20 != 0
    else if p == 3 then b & 0x10 != 0
    else if p == 4 then b & 0x08 != 0
    else if p == 5 then b & 0x04 != 0
    else if p == 6 then b & 0x02 != 0
    else b & 0x01 != 0
  }

  predicate BitAt(bytes: seq<bv8>, k: nat) {
    k / 8 < |bytes| && BitOf(bytes[k / 8], k % 8)
  }

  function SixBits(b0: bool, b1: bool, b2: bool, b3: bool, b4: bool, b5: bool): (v: bv8)
    ensures v < 64
  {
    (if b0 then 32 else 0) | (if b1 then 16 else 0) | (if b2 then 8 else 0)
    | (if b3 then 4 else 0) | (if b4 then 2 else 0) | (if b5 then 1 else 0)
  }

  function SextetAt(bytes: seq<bv8>, j: nat): (v: bv8)
    ensures v < 64
  {
    SixBits(BitAt(bytes, 6 * j), BitAt(bytes, 6 * j + 1), BitAt(bytes, 6 * j + 2),
            BitAt(bytes, 6 * j + 3), BitAt(bytes, 6 * j + 4), BitAt(bytes, 6 * j + 5))
  }

  /** No padding: as many characters as it takes to hold all bits. */
  function EncodedLength(n: nat): nat {
    (8 * n + 5) / 6
  }

  lemma BitAfterGroup(bytes: seq<bv8>, k: nat)
    requires 3 <= |bytes|
    ensures BitAt(bytes, k + 24) <==> BitAt(bytes[3..], k)
  {
    assert (k + 24) / 8 == k / 8 + 3 && (k + 24) % 8 == k % 8;
  }

  lemma SextetAfterGroup(bytes: seq<bv8>, j: nat)
    requires 3 <= |bytes|
    ensures SextetAt(bytes, j + 4) == SextetAt(bytes[3..], j)
  {
    BitAfterGroup(bytes, 6 * j);
    BitAfterGroup(bytes, 6 * j + 1);
    BitAfterGroup(bytes, 6 * j + 2);
    BitAfterGroup(bytes, 6 * j + 3);
    BitAfterGroup(bytes, 6 * j + 4);
    BitAfterGroup(bytes, 6 * j + 5);
  }

  lemma SextetsOfGroup(b0: bv8, b1: bv8, b2: bv8)
    ensures First(b0) == SixBits(BitOf(b0, 0), BitOf(b0, 1), BitOf(b0, 2), BitOf(b0, 3), BitOf(b0, 4), BitOf(b0, 5))
    ensures Second(b0, b1)
            == SixBits(BitOf(b0, 6), BitOf(b0, 7), BitOf(b1, 0), BitOf(b1, 1), BitOf(b1, 2), BitOf(b1, 3))
    ensures Third(b1, b2) == SixBits(BitOf(b1, 4), BitOf(b1, 5), BitOf(b1, 6), BitOf(b1, 7), BitOf(b2, 0), BitOf(b2, 1))
    ensures Fourth(b2) == SixBits(BitOf(b2, 2), BitOf(b2, 3), BitOf(b2, 4), BitOf(b2, 5), BitOf(b2, 6), BitOf(b2, 7))
  {
  }

  lemma NoBits(p: nat)
    ensures !BitOf(0, p)
  {
  }

  /** The first values of the encoder are the first sextets, missing bytes counting as zero bits. */
  lemma FirstSextets(bytes: seq<bv8>)
    requires bytes != []
    ensures var b0, b1, b2 := bytes[0], if |bytes| > 1 then bytes[1] else 0, if |bytes| > 2 then bytes[2] else 0;
            && SextetAt(bytes, 0) == First(b0) && SextetAt(bytes, 1) == Second(b0, b1)
            && SextetAt(bytes, 2) == Third(b1, b2) && SextetAt(bytes, 3) == Fourth(b2)
  {
    var b0, b1, b2 := bytes[0], if |bytes| > 1 then bytes[1] else 0, if |bytes| > 2 then bytes[2] else 0;
    SextetsOfGroup(b0, b1, b2);
    forall k: nat | k < 24
      ensures BitAt(bytes, k) == BitOf(if k < 8 then b0 else if k < 16 then b1 else b2, k % 8)
    {
      NoBits(k % 8);
    }
    hide BitOf, BitAt, SixBits, First, Second, Third, Fourth;
  }

  /** The loop's shifts and masks produce the sextets of the bit string, and as many as it takes. */
  lemma {:induction false} ValuesAreSextets(bytes: seq<bv8>)
    ensures |Values(bytes)| == EncodedLength(|bytes|)
    ensures forall j :: 0 <= j < |Values(bytes)| ==> Values(bytes)[j] == SextetAt(bytes, j)
  {
    hide SextetAt, First, Second, Third, Fourth;
    if bytes != [] {
      FirstSextets(bytes);
      if |bytes| >= 3 {
        var rest := Values(bytes[3..]);
        ValuesAreSextets(bytes[3..]);
        forall j | 4 <= j < |Values(bytes)|
          ensures Values(bytes)[j] == SextetAt(bytes, j)
        {
          SextetAfterGroup(bytes, j - 4);
          assert Values(bytes)[j] == rest[j - 4];
        }
      }
    }
  }

  lemma {:induction false} CharsSpec(vs: seq<bv8>)
    requires forall i :: 0 <= i < |vs| ==> vs[i] < 64
    ensures |Chars(vs)| == |vs| && forall i :: 0 <= i < |vs| ==> Chars(vs)[i] == CharOf(vs[i])
  {
    hide CharOf;
    if vs != [] {
      CharsSpec(vs[1..]);
    }
  }

  /** The client's encoder is base64url: character j stands for bits 6j to 6j + 5 of the input. */
  lemma EncodeIsBase64Url(bytes: seq<bv8>)
    ensures |Encode(bytes)| == EncodedLength(|bytes|)
    ensures forall j :: 0 <= j < |Encode(bytes)| ==>
              Encode(bytes)[j] == CharOf(SextetAt(bytes, j)) && IsUnreserved(Encode(bytes)[j])
  {
    ValuesAreSextets(bytes);
    CharsSpec(Values(bytes));
    hide SextetAt, Values, Chars;
    forall j | 0 <= j < |Encode(bytes)|
      ensures IsUnreserved(CharOf(SextetAt(bytes, j)))
    {
      AlphabetIsInvertible(SextetAt(bytes, j) as nat);
    }
  }

  // ---- decoding

  function ValuesOf(s: string): seq<bv8> {
    if s == "" then [] else [ValueOf(s[0]) as bv8] + ValuesOf(s[1..])
  }

  function DecodeValues(vs: seq<bv8>): seq<bv8> {
    if |vs| < 2 then []
    else if |vs| == 2 then [(vs[0] << 2) | (vs[1] >> 4)]
    else if |vs| == 3 then [(vs[0] << 2) | (vs[1] >> 4), (vs[1] << 4) | (vs[2] >> 2)]
    else [(vs[0] << 2) | (vs[1] >> 4), (vs[1] << 4) | (vs[2] >> 2), (vs[2] << 6) | vs[3]] + DecodeValues(vs[4..])
  }

  function Decode(s: string): seq<bv8> {
    DecodeValues(ValuesOf(s))
  }

  lemma GroupDecodes(b0: bv8, b1: bv8, b2: bv8)
    ensures (First(b0) << 2) | (Second(b0, b1) >> 4) == b0
    ensures (Second(b0, b1) << 4) | (Third(b1, b2) >> 2) == b1
    ensures (Third(b1, b2) << 6) | Fourth(b2) == b2
  {
  }

  lemma {:induction false} ValuesDecode(bytes: seq<bv8>)
    ensures DecodeValues(Values(bytes)) == bytes
  {
    hide First, Second, Third, Fourth;
    if |bytes| == 1 {
      GroupDecodes(bytes[0], 0, 0);
    } else if |bytes| == 2 {
      GroupDecodes(bytes[0], bytes[1], 0);
    } else if |bytes| >= 3 {
      GroupDecodes(bytes[0], bytes[1], bytes[2]);
      ValuesDecode(bytes[3..]);
      assert Values(bytes)[4..] == Values(bytes[3..]);
    }
  }

  lemma {:induction false} CharsRead(vs: seq<bv8>)
    requires forall i :: 0 <= i < |vs| ==> vs[i] < 64
    ensures ValuesOf(Chars(vs)) == vs
  {
    if vs != [] {
      CharReads(vs[0]);
      hide CharOf, ValueOf;
      CharsRead(vs[1..]);
    }
  }

  lemma CharReads(v: bv8)
    requires v < 64
    ensures ValueOf(CharOf(v)) as bv8 == v
  {
    AlphabetIsInvertible(v as nat);
  }

  /** Decoding undoes encoding, for every sequence of bytes. */
  lemma DecodeEncode(bytes: seq<bv8>)
    ensures Decode(Encode(bytes)) == bytes
  {
    CharsRead(Values(bytes));
    ValuesDecode(bytes);
  }

  // ---- verifier and challenge

  /** What the server accepts as a verifier or a challenge (RFC 7636 sections 4.1 and 4.2). */
  predicate IsAccepted(s: string) {
    43 <= |s| <= 128 && forall i :: 0 <= i < |s| ==> IsUnreserved(s[i])
  }

  /** An element of a JavaScript string. */
  type CodeUnit = x: nat | x < 0x1_0000

  /** UTF-16: a character beyond the first plane takes two units. */
  function UnitsOfChar(c: char): (units: seq<CodeUnit>)
    ensures |units| == if c as int < 0x1_0000 then 1 else 2
  {
    var v := c as int;
    if v < 0x1_0000 then [v] else [0xD800 + (v - 0x1_0000) / 0x400, 0xDC00 + v % 0x400]
  }

  function UnitsOf(s: string): seq<CodeUnit> {
    if s == [] then [] else UnitsOfChar(s[0]) + UnitsOf(s[1..])
  }

  function LowByte(unit: CodeUnit): bv8 {
    (unit % 256) as bv8
  }

  function LowBytes(units: seq<CodeUnit>): seq<bv8> {
    seq(|units|, i requires 0 <= i < |units| => LowByte(units[i]))
  }

  function AsciiOf(s: string): seq<bv8> { LowBytes(UnitsOf(s)) }

  method AsciiBytes(value: seq<CodeUnit>) returns (bytes: array<bv8>)
    ensures fresh(bytes) && bytes[..] == LowBytes(value)
  {
    bytes := new bv8[|value|];
    for i := 0 to |value|
      invariant forall k :: 0 <= k < i ==> bytes[k] == LowByte(value[k])
    {
      bytes[i] := LowByte(value[i]);
    }
  }

  /** On ASCII text the bytes are the character codes. */
  lemma {:induction false} AsciiIsCodes(s: string)
    requires forall i :: 0 <= i < |s| ==> s[i] as int < 128
    ensures |AsciiOf(s)| == |s| && forall i :: 0 <= i < |s| ==> AsciiOf(s)[i] as int == s[i] as int
  {
    hide UnitsOf;
    AsciiUnits(s);
  }

  lemma {:induction false} AsciiUnits(s: string)
    requires forall i :: 0 <= i < |s| ==> s[i] as int < 128
    ensures |UnitsOf(s)| == |s| && forall i :: 0 <= i < |s| ==> UnitsOf(s)[i] == s[i] as int
  {
    if s != [] {
      AsciiUnits(s[1..]);
    }
  }

  method CreateCodeVerifier(random: seq<bv8>) returns (verifier: string)
    requires |random| == VERIFIER_BYTES
    ensures verifier == Encode(random) && |verifier| == 43 && IsAccepted(verifier)
  {
    verifier := Base64UrlEncode(random);
    EncodeIsBase64Url(random);
  }

  /** The server's S256 value: base64url of the hash of the verifier's bytes (RFC 7636 section 4.6). */
  ghost predicate IsS256(challenge: string, verifier: string, sha256: seq<bv8> -> seq<bv8>) {
    var digest := sha256(AsciiOf(verifier));
    && |challenge| == EncodedLength(|digest|)
    && forall j :: 0 <= j < |challenge| ==> challenge[j] == CharOf(SextetAt(digest, j))
  }

  /** The client's challenge is the S256 value of its verifier, and of no string with another hash. */
  method CreateCodeChallenge(verifier: string, sha256: seq<bv8> -> seq<bv8>) returns (challenge: string)
    ensures IsS256(challenge, verifier, sha256)
    ensures |sha256(AsciiOf(verifier))| == 32 ==> |challenge| == 43 && IsAccepted(challenge)
    ensures forall other :: IsS256(challenge, other, sha256) ==> sha256(AsciiOf(other)) == sha256(AsciiOf(verifier))
  {
    var bytes := AsciiBytes(UnitsOf(verifier));
    var digest := sha256(bytes[..]);
    challenge := Base64UrlEncode(digest);
    EncodeIsBase64Url(digest);
    forall other | IsS256(challenge, other, sha256)
      ensures sha256(AsciiOf(other)) == digest
    {
      var digest' := sha256(AsciiOf(other));
      EncodeIsBase64Url(digest');
      assert challenge == Encode(digest');
      DecodeEncode(digest);
      DecodeEncode(digest');
    }
  }
}
