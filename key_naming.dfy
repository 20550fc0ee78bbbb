/** Object-key sanitisation of DbService (UploadFileToR2Async and
    GetKeyFromR2Async): every space becomes an underscore, then the name goes
    through `Uri.EscapeDataString`, which encodes the text as UTF-8 and writes
    every octet outside the unreserved set of section 2.3 of RFC 3986 as a
    `%XX` triplet with upper-case hexadecimal digits (sections 2.1 and 2.5). */
module KeyNaming {
  import opened Models

  /** The unreserved characters of RFC 3986, section 2.3. */
  predicate IsUnreserved(c: char) {
    ('A' <= c <= 'Z') || ('a' <= c <= 'z') || ('0' <= c <= '9')
    || c == '-' || c == '.' || c == '_' || c == '~'
  }

  /** An upper-case hexadecimal digit, as RFC 3986 section 2.1 recommends. */
  predicate IsUpperHex(c: char) {
    ('0' <= c <= '9') || ('A' <= c <= 'F')
  }

  /** `key.Replace(" ", "_")`. */
  function ReplaceSpaces(s: string): (r: string)
    ensures |r| == |s|
    ensures forall i :: 0 <= i < |s| ==> r[i] == (if s[i] == ' ' then '_' else s[i])
  {
    if s == [] then [] else [if s[0] == ' ' then '_' else s[0]] + ReplaceSpaces(s[1..])
  }

  // ---------------------------------------------------------------------
  // UTF-8
  // ---------------------------------------------------------------------

  /** The UTF-8 encoding of one Unicode scalar value: one to four octets,
      the lead octet telling how many, every other octet a continuation
      octet, and a single octet exactly for ASCII. */
  function Utf8Char(c: char): (r: seq<byte>)
    ensures 1 <= |r| <= 4
    ensures |r| == SequenceLength(r[0])
    ensures forall i :: 1 <= i < |r| ==> 0x80 <= r[i] < 0xC0
    ensures |r| == 1 <==> c as int < 0x80
  {
    var n := c as int;
    if n < 0x80 then [n]
    else if n < 0x800 then [0xC0 + n / 64, 0x80 + n % 64]
    else if n < 0x10000 then [0xE0 + n / 64 / 64, 0x80 + n / 64 % 64, 0x80 + n % 64]
    else [0xF0 + n / 64 / 64 / 64, 0x80 + n / 64 / 64 % 64, 0x80 + n / 64 % 64, 0x80 + n % 64]
  }

  /** The UTF-8 encoding of a string: one to four octets per character. */
  function Utf8(s: string): (r: seq<byte>)
    ensures |s| <= |r| <= 4 * |s|
  {
    if s == [] then [] else Utf8Char(s[0]) + Utf8(s[1..])
  }

  /** The number of octets a UTF-8 sequence has, read off its lead octet. */
  function SequenceLength(lead: byte): nat {
    if lead < 0x80 then 1 else if lead < 0xE0 then 2 else if lead < 0xF0 then 3 else 4
  }

  /** The code point a character's encoding carries, read back. */
  lemma Utf8CharValue(c: char)
    ensures var e: seq<int>, n := Utf8Char(c), c as int;
      if |e| == 1 then n == e[0]
      else if |e| == 2 then n == 64 * (e[0] - 0xC0) + (e[1] - 0x80)
      else if |e| == 3 then n == 64 * (64 * (e[0] - 0xE0) + (e[1] - 0x80)) + (e[2] - 0x80)
      else n == 64 * (64 * (64 * (e[0] - 0xF0) + (e[1] - 0x80)) + (e[2] - 0x80)) + (e[3] - 0x80)
  {
  }

  /** Different characters have different encodings. */
  lemma Utf8CharInjective(c: char, d: char)
    requires Utf8Char(c) == Utf8Char(d)
    ensures c == d
  {
    Utf8CharValue(c);
    Utf8CharValue(d);
  }

  /** UTF-8 encoding, and hence the escaping built on it, loses nothing. */
  lemma {:induction false} Utf8Injective(a: string, b: string)
    requires Utf8(a) == Utf8(b)
    ensures a == b
  {
    if a == [] {
      assert |b| <= |Utf8(b)| == 0;
    } else {
      assert b != [] by { assert |Utf8(a)| >= 1; }
      var ea, eb := Utf8Char(a[0]), Utf8Char(b[0]);
      assert Utf8(a) == ea + Utf8(a[1..]);
      assert Utf8(b) == eb + Utf8(b[1..]);
      assert ea[0] == Utf8(a)[0] == Utf8(b)[0] == eb[0];
      assert ea == Utf8(a)[..|ea|] == Utf8(b)[..|eb|] == eb;
      Utf8CharInjective(a[0], b[0]);
      assert Utf8(a[1..]) == Utf8(a)[|ea|..] == Utf8(b)[|eb|..] == Utf8(b[1..]);
      Utf8Injective(a[1..], b[1..]);
      assert a == [a[0]] + a[1..];
      assert b == [b[0]] + b[1..];
    }
  }

  /** Encoding distributes over concatenation. */
  lemma {:induction false} Utf8Concat(a: string, b: string)
    ensures Utf8(a + b) == Utf8(a) + Utf8(b)
  {
    if a != [] {
      assert (a + b)[1..] == a[1..] + b;
      Utf8Concat(a[1..], b);
    } else {
      assert a + b == b;
    }
  }

  // ---------------------------------------------------------------------
  // Percent-encoding
  // ---------------------------------------------------------------------

  /** The upper-case hexadecimal digit for 0 <= n < 16. */
  function HexDigit(n: int): (c: char)
    requires 0 <= n < 16
    ensures IsUpperHex(c)
  {
    if n < 10 then ('0' as int + n) as char else ('A' as int + n - 10) as char
  }

  /** The value of an upper-case hexadecimal digit. */
  function HexValue(c: char): (n: int)
    requires IsUpperHex(c)
    ensures 0 <= n < 16
  {
    if c <= '9' then c as int - '0' as int else c as int - 'A' as int + 10
  }

  /** The escape of one octet: itself when it is an unreserved character,
      otherwise `%` and two upper-case hexadecimal digits that spell it. */
  function EscapeOctet(b: byte): (r: string)
    ensures |r| == 1 || |r| == 3
    ensures |r| == 1 <==> b < 0x80 && IsUnreserved(b as char)
    ensures |r| == 1 ==> r[0] as int == b && IsUnreserved(r[0])
    ensures |r| == 3 ==>
      r[0] == '%' && IsUpperHex(r[1]) && IsUpperHex(r[2]) && 16 * HexValue(r[1]) + HexValue(r[2]) == b
  {
    if b < 0x80 && IsUnreserved(b as char) then [b as char]
    else ['%', HexDigit(b / 16), HexDigit(b % 16)]
  }

  /** Percent-encoding of an octet sequence: one or three characters per
      octet, each unreserved or the `%` of a triplet. */
  function EscapeOctets(bs: seq<byte>): (r: string)
    ensures |bs| <= |r| <= 3 * |bs|
    ensures forall i :: 0 <= i < |r| ==> IsUnreserved(r[i]) || r[i] == '%'
  {
    if bs == [] then []
    else
      var e, rest := EscapeOctet(bs[0]), EscapeOctets(bs[1..]);
      assert forall i :: 0 <= i < |e| ==> IsUnreserved(e[i]) || e[i] == '%';
      e + rest
  }

  /** `Uri.EscapeDataString`: percent-decoding gives back the UTF-8 of the
      text, and only unreserved characters and `%` appear. */
  function EscapeDataString(s: string): (r: string)
    ensures PercentDecode(r) == Some(Utf8(s))
    ensures forall i :: 0 <= i < |r| ==> IsUnreserved(r[i]) || r[i] == '%'
  {
    DecodeEscapeOctets(Utf8(s));
    EscapeOctets(Utf8(s))
  }

  /** The key under which a file name is stored (DbService.cs lines 172 and
      326): a well-formed percent-encoding that decodes to the UTF-8 of the
      name with its spaces replaced, made of unreserved characters and `%`
      only, so with no space. */
  function SanitizeKey(fileName: string): (k: string)
    ensures PercentDecode(k) == Some(Utf8(ReplaceSpaces(fileName)))
    ensures IsPercentEncoded(k)
    ensures forall i :: 0 <= i < |k| ==> IsUnreserved(k[i]) || k[i] == '%'
    ensures ' ' !in k
  {
    var k := EscapeDataString(ReplaceSpaces(fileName));
    assert forall i :: 0 <= i < |k| ==> k[i] != ' ' by {
      assert forall i :: 0 <= i < |k| ==> IsUnreserved(k[i]) || k[i] == '%';
    }
    k
  }

  /** Percent-decoding: the inverse of EscapeOctets on well-formed keys;
      None when the text holds a reserved character or a malformed triplet.
      What it accepts is made of unreserved characters and `%` only, and
      has one to three characters per octet. */
  function PercentDecode(k: string): (r: Option<seq<byte>>)
    ensures r.Some? ==> |r.value| <= |k| <= 3 * |r.value|
    ensures r.Some? ==> forall i :: 0 <= i < |k| ==> IsUnreserved(k[i]) || k[i] == '%'
  {
    if k == [] then Some([])
    else if k[0] == '%' then
      if |k| >= 3 && IsUpperHex(k[1]) && IsUpperHex(k[2]) then
        match PercentDecode(k[3..])
        case None => None
        case Some(rest) =>
          assert forall i :: 3 <= i < |k| ==> k[i] == k[3..][i - 3];
          Some([16 * HexValue(k[1]) + HexValue(k[2])] + rest)
      else None
    else if IsUnreserved(k[0]) then
      match PercentDecode(k[1..])
      case None => None
      case Some(rest) =>
        assert forall i :: 1 <= i < |k| ==> k[i] == k[1..][i - 1];
        Some([k[0] as int] + rest)
    else None
  }

  /** A key is well formed when it is made of unreserved characters and
      `%XX` triplets only. */
  predicate IsPercentEncoded(k: string) {
    PercentDecode(k).Some?
  }

  /** Decoding undoes the escape of any octet sequence. */
  lemma {:induction false} DecodeEscapeOctets(bs: seq<byte>)
    ensures PercentDecode(EscapeOctets(bs)) == Some(bs)
  {
    if bs != [] {
      var b, e, rest := bs[0], EscapeOctet(bs[0]), EscapeOctets(bs[1..]);
      var k := e + rest;
      assert EscapeOctets(bs) == k;
      DecodeEscapeOctets(bs[1..]);
      if b < 0x80 && IsUnreserved(b as char) {
        assert k[0] == b as char && k[1..] == rest;
      } else {
        assert k[0] == '%' && k[1] == HexDigit(b / 16) && k[2] == HexDigit(b % 16);
        assert k[3..] == rest;
        assert 16 * HexValue(k[1]) + HexValue(k[2]) == b;
      }
      assert bs == [b] + bs[1..];
    }
  }

  /** Escaping distributes over concatenation. */
  lemma {:induction false} EscapeOctetsConcat(a: seq<byte>, b: seq<byte>)
    ensures EscapeOctets(a + b) == EscapeOctets(a) + EscapeOctets(b)
  {
    if a != [] {
      var e := EscapeOctet(a[0]);
      assert (a + b)[0] == a[0] && (a + b)[1..] == a[1..] + b;
      assert EscapeOctets(a + b) == e + EscapeOctets(a[1..] + b);
      EscapeOctetsConcat(a[1..], b);
      assert EscapeOctets(a) == e + EscapeOctets(a[1..]);
    } else {
      assert a + b == b;
    }
  }

  /** Two file names give the same key exactly when they agree once spaces
      are replaced by underscores: "a b.png" and "a_b.png" collide, and
      nothing else does. */
  lemma SanitizeKeyCollision(a: string, b: string)
    ensures SanitizeKey(a) == SanitizeKey(b) <==> ReplaceSpaces(a) == ReplaceSpaces(b)
  {
    if SanitizeKey(a) == SanitizeKey(b) {
      Utf8Injective(ReplaceSpaces(a), ReplaceSpaces(b));
    }
  }

  /** Names that differ only by space versus underscore give the same key. */
  lemma SpaceUnderscoreCollide(a: string, b: string)
    requires |a| == |b|
    requires forall i :: 0 <= i < |a| ==> a[i] == b[i] || (a[i] in {' ', '_'} && b[i] in {' ', '_'})
    ensures SanitizeKey(a) == SanitizeKey(b)
  {
    assert ReplaceSpaces(a) == ReplaceSpaces(b);
  }

  /** Sanitisation distributes over concatenation. */
  lemma {:induction false} SanitizeKeyConcat(a: string, b: string)
    ensures SanitizeKey(a + b) == SanitizeKey(a) + SanitizeKey(b)
  {
    var ra, rb := ReplaceSpaces(a), ReplaceSpaces(b);
    assert ReplaceSpaces(a + b) == ra + rb by {
      assert forall i :: 0 <= i < |a + b| ==> ReplaceSpaces(a + b)[i] == (ra + rb)[i];
    }
    Utf8Concat(ra, rb);
    EscapeOctetsConcat(Utf8(ra), Utf8(rb));
    assert SanitizeKey(a + b) == EscapeOctets(Utf8(ra) + Utf8(rb));
  }

  /** A name of unreserved characters is its own key. */
  lemma {:induction false} SanitizeUnreserved(s: string)
    requires forall i :: 0 <= i < |s| ==> IsUnreserved(s[i])
    ensures SanitizeKey(s) == s
  {
    if s != [] {
      SanitizeUnreserved(s[1..]);
      assert s == [s[0]] + s[1..];
      SanitizeKeyConcat([s[0]], s[1..]);
      assert ReplaceSpaces([s[0]]) == [s[0]];
      assert Utf8([s[0]]) == [s[0] as int];
    }
  }

  /** The text of `Guid.ToString()`: 36 lower-case hexadecimal digits and dashes. */
  predicate IsGuidText(g: string) {
    |g| == 36 && forall i :: 0 <= i < |g| ==> ('0' <= g[i] <= '9') || ('a' <= g[i] <= 'f') || g[i] == '-'
  }

  /** `$"{Guid.NewGuid()}_{fileName}"`: a random token, an underscore, the name. */
  function UniqueFileName(guid: string, fileName: string): string {
    guid + "_" + fileName
  }

  /** The key of a unique file name keeps the token and the underscore
      verbatim and sanitises only the original name. */
  lemma UniqueFileNameKey(guid: string, fileName: string)
    requires IsGuidText(guid)
    ensures SanitizeKey(UniqueFileName(guid, fileName)) == guid + "_" + SanitizeKey(fileName)
  {
    SanitizeKeyConcat(guid + "_", fileName);
    SanitizeUnreserved(guid + "_");
  }

  /** Different tokens give different keys, whatever the file names. */
  lemma UniqueFileNameKeysDiffer(g1: string, g2: string, name1: string, name2: string)
    requires IsGuidText(g1) && IsGuidText(g2) && g1 != g2
    ensures SanitizeKey(UniqueFileName(g1, name1)) != SanitizeKey(UniqueFileName(g2, name2))
  {
    UniqueFileNameKey(g1, name1);
    UniqueFileNameKey(g2, name2);
    var k1, k2 := SanitizeKey(UniqueFileName(g1, name1)), SanitizeKey(UniqueFileName(g2, name2));
    assert k1[..36] == g1 && k2[..36] == g2;
  }
}
