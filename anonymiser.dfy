/** The identifier pseudonymiser `deidentifyMac`: a MAC address becomes the
    lowercase hexadecimal SHA-256 digest of the UTF-8 bytes of the salt followed
    immediately by the UTF-8 bytes of the MAC. */
module Anonymiser {

  import opened Base

  type Byte = b: int | 0 <= b < 256

  /** A SHA-256 digest: 32 bytes. */
  type Digest = d: seq<Byte> | |d| == 32 witness seq(32, _ => 0)

  /** SHA-256 itself is not modelled: the operations that need it take it as a
      parameter. As a Dafny function it is deterministic by construction. */
  type Sha256 = seq<Byte> -> Digest

  // ---------------------------------------------------------------------------
  // str.encode(): UTF-8

  /** The UTF-8 encoding of one Unicode scalar value. */
  function Utf8Char(c: char): (bs: seq<Byte>)
    ensures 1 <= |bs| <= 4
    ensures |bs| == SequenceLength(bs[0])
  {
    var n := c as int;
    if n < 0x80 then [n]
    else if n < 0x800 then [0xC0 + n / 64, 0x80 + n % 64]
    else if n < 0x1_0000 then [0xE0 + n / 64 / 64, 0x80 + n / 64 % 64, 0x80 + n % 64]
    else [0xF0 + n / 64 / 64 / 64, 0x80 + n / 64 / 64 % 64, 0x80 + n / 64 % 64, 0x80 + n % 64]
  }

  /** How many bytes a UTF-8 sequence occupies, read off its lead byte. */
  function SequenceLength(lead: Byte): nat
  {
    if lead < 0x80 then 1 else if lead < 0xE0 then 2 else if lead < 0xF0 then 3 else 4
  }

  /** The scalar value a well-formed UTF-8 sequence of one to four bytes stands for. */
  function DecodeScalar(bs: seq<Byte>): int
    requires 1 <= |bs| <= 4
  {
    var b: seq<int> := bs;
    if |b| == 1 then b[0]
    else if |b| == 2 then (b[0] - 0xC0) * 64 + (b[1] - 0x80)
    else if |b| == 3 then ((b[0] - 0xE0) * 64 + (b[1] - 0x80)) * 64 + (b[2] - 0x80)
    else (((b[0] - 0xF0) * 64 + (b[1] - 0x80)) * 64 + (b[2] - 0x80)) * 64 + (b[3] - 0x80)
  }

  lemma Utf8CharDecodes(c: char)
    ensures DecodeScalar(Utf8Char(c)) == c as int
  {
  }

  /** The UTF-8 encoding of a string (Python's `str.encode()` with its default codec). */
  function Utf8(s: string): (bs: seq<Byte>)
    ensures |s| <= |bs| <= 4 * |s|
  {
    if s == [] then [] else Utf8Char(s[0]) + Utf8(s[1..])
  }

  lemma {:induction false} Utf8Concat(a: string, b: string)
    ensures Utf8(a + b) == Utf8(a) + Utf8(b)
  {
    if a == [] {
      assert a + b == b;
    } else {
      assert (a + b)[0] == a[0];
      assert (a + b)[1..] == a[1..] + b;
      Utf8Concat(a[1..], b);
    }
  }

  /** Characters below 128 encode as their own code, one byte each; MAC addresses
      are written in such characters. */
  lemma {:induction false} Utf8Ascii(s: string)
    requires forall i :: 0 <= i < |s| ==> s[i] as int < 0x80
    ensures |Utf8(s)| == |s|
    ensures forall i :: 0 <= i < |s| ==> Utf8(s)[i] == s[i] as int
  {
    if s != [] {
      Utf8Ascii(s[1..]);
    }
  }

  /** Different strings have different encodings. */
  lemma {:induction false} Utf8Injective(s: string, t: string)
    requires Utf8(s) == Utf8(t)
    ensures s == t
  {
    if s == [] || t == [] {
      assert |Utf8(s)| == 0 || |Utf8(t)| == 0;
    } else {
      var a, b := Utf8Char(s[0]), Utf8Char(t[0]);
      assert Utf8(s) == a + Utf8(s[1..]);
      assert Utf8(t) == b + Utf8(t[1..]);
      assert a[0] == Utf8(s)[0] == b[0];
      assert |a| == |b|;
      assert a == Utf8(s)[..|a|] == b;
      Utf8CharDecodes(s[0]);
      Utf8CharDecodes(t[0]);
      assert s[0] == t[0];
      assert Utf8(s[1..]) == Utf8(s)[|a|..] == Utf8(t[1..]);
      Utf8Injective(s[1..], t[1..]);
      assert s == [s[0]] + s[1..];
      assert t == [t[0]] + t[1..];
    }
  }

  // ---------------------------------------------------------------------------
  // hexdigest(): lowercase hexadecimal, two characters per byte, high nibble first

  predicate IsLowerHexChar(ch: char)
  {
    '0' <= ch <= '9' || 'a' <= ch <= 'f'
  }

  function HexDigit(v: int): (ch: char)
    requires 0 <= v < 16
    ensures IsLowerHexChar(ch)
  {
    if v < 10 then ('0' as int + v) as char else ('a' as int + v - 10) as char
  }

  function HexDigitValue(ch: char): Option<int>
  {
    if '0' <= ch <= '9' then Some(ch as int - '0' as int)
    else if 'a' <= ch <= 'f' then Some(ch as int - 'a' as int + 10)
    else None
  }

  function HexDigest(d: seq<Byte>): (h: string)
    ensures |h| == 2 * |d|
    ensures forall i :: 0 <= i < |h| ==> IsLowerHexChar(h[i])
  {
    if d == [] then [] else [HexDigit(d[0] / 16), HexDigit(d[0] % 16)] + HexDigest(d[1..])
  }

  /** Reads a lowercase hexadecimal string back into bytes. */
  function UnHex(h: string): Option<seq<Byte>>
    decreases |h|
  {
    if h == [] then Some([])
    else if |h| == 1 then None
    else match (HexDigitValue(h[0]), HexDigitValue(h[1]), UnHex(h[2..]))
      case (Some(hi), Some(lo), Some(rest)) => Some([hi * 16 + lo] + rest)
      case _ => None
  }

  lemma {:induction false} UnHexHexDigest(d: seq<Byte>)
    ensures UnHex(HexDigest(d)) == Some(d)
  {
    if d != [] {
      var h := HexDigest(d);
      assert h[2..] == HexDigest(d[1..]);
      UnHexHexDigest(d[1..]);
      assert HexDigitValue(h[0]) == Some(d[0] / 16);
      assert HexDigitValue(h[1]) == Some(d[0] % 16);
      assert d == [d[0]] + d[1..];
    }
  }

  // ---------------------------------------------------------------------------
  // deidentifyMac (cmx-anonymiser.py:84-88)

  /** The token that replaces a MAC address: 64 lowercase hexadecimal characters. */
  function DeidentifyMac(sha: Sha256, salt: string, mac: string): (token: string)
    ensures |token| == 64
    ensures forall i :: 0 <= i < |token| ==> IsLowerHexChar(token[i])
  {
    HexDigest(sha(Utf8(salt) + Utf8(mac)))
  }

  /** The token is the hex digest of the UTF-8 bytes of the string salt ++ mac:
      salt first, no separator. */
  lemma TokenHashesSaltThenMac(sha: Sha256, salt: string, mac: string)
    ensures DeidentifyMac(sha, salt, mac) == HexDigest(sha(Utf8(salt + mac)))
    ensures UnHex(DeidentifyMac(sha, salt, mac)) == Some(sha(Utf8(salt + mac)))
  {
    Utf8Concat(salt, mac);
    UnHexHexDigest(sha(Utf8(salt + mac)));
  }

  /** Because there is no separator, only the concatenation salt ++ mac matters. */
  lemma TokenSeesOnlyConcatenation(sha: Sha256, salt1: string, mac1: string, salt2: string, mac2: string)
    requires salt1 + mac1 == salt2 + mac2
    ensures DeidentifyMac(sha, salt1, mac1) == DeidentifyMac(sha, salt2, mac2)
  {
    Utf8Concat(salt1, mac1);
    Utf8Concat(salt2, mac2);
  }

  /** Under one salt, two different MACs can share a token only through a SHA-256
      collision between two different inputs. */
  lemma MacTokenCollisionIsShaCollision(sha: Sha256, salt: string, mac1: string, mac2: string)
    requires mac1 != mac2
    requires DeidentifyMac(sha, salt, mac1) == DeidentifyMac(sha, salt, mac2)
    ensures Utf8(salt) + Utf8(mac1) != Utf8(salt) + Utf8(mac2)
    ensures sha(Utf8(salt) + Utf8(mac1)) == sha(Utf8(salt) + Utf8(mac2))
  {
    var in1, in2 := Utf8(salt) + Utf8(mac1), Utf8(salt) + Utf8(mac2);
    UnHexHexDigest(sha(in1));
    UnHexHexDigest(sha(in2));
    if in1 == in2 {
      assert Utf8(mac1) == in1[|Utf8(salt)|..] == in2[|Utf8(salt)|..] == Utf8(mac2);
      Utf8Injective(mac1, mac2);
    }
  }

  /** Likewise, for one MAC two different salts can give the same token only through
      a SHA-256 collision. */
  lemma SaltTokenCollisionIsShaCollision(sha: Sha256, salt1: string, salt2: string, mac: string)
    requires salt1 != salt2
    requires DeidentifyMac(sha, salt1, mac) == DeidentifyMac(sha, salt2, mac)
    ensures Utf8(salt1) + Utf8(mac) != Utf8(salt2) + Utf8(mac)
    ensures sha(Utf8(salt1) + Utf8(mac)) == sha(Utf8(salt2) + Utf8(mac))
  {
    var in1, in2 := Utf8(salt1) + Utf8(mac), Utf8(salt2) + Utf8(mac);
    UnHexHexDigest(sha(in1));
    UnHexHexDigest(sha(in2));
    if in1 == in2 {
      assert |Utf8(salt1)| == |Utf8(salt2)|;
      assert Utf8(salt1) == in1[..|Utf8(salt1)|] == in2[..|Utf8(salt2)|] == Utf8(salt2);
      Utf8Injective(salt1, salt2);
    }
  }

  /** A token never equals a raw identifier whose length is not 64, e.g. a
      17-character MAC address such as "00:11:22:33:44:55". */
  lemma TokenDiffersFromMac(sha: Sha256, salt: string, mac: string)
    requires |mac| != 64
    ensures DeidentifyMac(sha, salt, mac) != mac
  {
  }
}
