/** Base64 with the URL- and filename-safe alphabet of section 5 of RFC 4648,
    as Python's `base64.urlsafe_b64encode` produces it, the padding-free form
    `secrets.token_urlsafe` and the PKCE challenge use, and its decoding. */
module Base64Url {
  import opened Base

  type byte = x: int | 0 <= x < 256

  /** The 64 characters of the URL-safe alphabet; `=` is not among them. */
  predicate IsUrlSafeChar(c: char) {
    ('A' <= c <= 'Z') || ('a' <= c <= 'z') || ('0' <= c <= '9') || c == '-' || c == '_'
  }

  predicate IsUrlSafe(s: string) {
    forall i :: 0 <= i < |s| ==> IsUrlSafeChar(s[i])
  }

  function SextetChar(v: nat): (c: char)
    requires v < 64
    ensures IsUrlSafeChar(c)
  {
    if v < 26 then ('A' as int + v) as char
    else if v < 52 then ('a' as int + (v - 26)) as char
    else if v < 62 then ('0' as int + (v - 52)) as char
    else if v == 62 then '-'
    else '_'
  }

  function SextetValue(c: char): (v: nat)
    requires IsUrlSafeChar(c)
    ensures v < 64 && SextetChar(v) == c
  {
    if 'A' <= c <= 'Z' then c as int - 'A' as int
    else if 'a' <= c <= 'z' then c as int - 'a' as int + 26
    else if '0' <= c <= '9' then c as int - '0' as int + 52
    else if c == '-' then 62
    else 63
  }

  lemma SextetRoundTrip(v: nat)
    requires v < 64
    ensures SextetValue(SextetChar(v)) == v
  {
  }

  /** The alphabet characters of the encoding: four per full group of three
      bytes, and two or three for a trailing group of one or two bytes. */
  function EncodeDigits(b: seq<byte>): (r: string)
    ensures |r| == (4 * |b| + 2) / 3
    ensures IsUrlSafe(r)
    decreases |b|
  {
    if |b| == 0 then ""
    else if |b| == 1 then
      [SextetChar(b[0] / 4), SextetChar((b[0] % 4) * 16)]
    else if |b| == 2 then
      [SextetChar(b[0] / 4), SextetChar((b[0] % 4) * 16 + b[1] / 16), SextetChar((b[1] % 16) * 4)]
    else
      [SextetChar(b[0] / 4), SextetChar((b[0] % 4) * 16 + b[1] / 16),
       SextetChar((b[1] % 16) * 4 + b[2] / 64), SextetChar(b[2] % 64)]
      + EncodeDigits(b[3..])
  }

  /** The `=` characters that fill the last group up to four characters. */
  function Padding(n: nat): string {
    if n % 3 == 1 then "==" else if n % 3 == 2 then "=" else ""
  }

  /** `base64.urlsafe_b64encode`: the encoding padded to a multiple of four. */
  function Encode(b: seq<byte>): (r: string)
    ensures |r| == 4 * ((|b| + 2) / 3)
  {
    PaddedLength(|b|);
    EncodeDigits(b) + Padding(|b|)
  }

  /** The digits and the padding together fill whole groups of four. */
  lemma PaddedLength(n: nat)
    ensures (4 * n + 2) / 3 + |Padding(n)| == 4 * ((n + 2) / 3)
  {
    var k := n / 3;
    if n % 3 == 0 {
      assert (4 * n + 2) / 3 == 4 * k && (n + 2) / 3 == k;
    } else if n % 3 == 1 {
      assert (4 * n + 2) / 3 == 4 * k + 2 && (n + 2) / 3 == k + 1;
    } else {
      assert (4 * n + 2) / 3 == 4 * k + 3 && (n + 2) / 3 == k + 1;
    }
  }

  /** `str.rstrip("=")`. */
  function StripPadding(s: string): (r: string)
    decreases |s|
  {
    if |s| > 0 && s[|s| - 1] == '=' then StripPadding(s[..|s| - 1]) else s
  }

  lemma {:induction false} StripPaddingOfPadded(s: string, pad: string)
    requires IsUrlSafe(s)
    requires forall i :: 0 <= i < |pad| ==> pad[i] == '='
    ensures StripPadding(s + pad) == s
    decreases |pad|
  {
    if |pad| > 0 {
      assert (s + pad)[..|s + pad| - 1] == s + pad[..|pad| - 1];
      StripPaddingOfPadded(s, pad[..|pad| - 1]);
    } else {
      assert s + pad == s;
      if |s| > 0 {
        assert IsUrlSafeChar(s[|s| - 1]);
      }
    }
  }

  /** `urlsafe_b64encode(b).rstrip("=")`: stripping removes exactly the
      padding, so what is left is the alphabet encoding, ceil(4n/3) characters
      long, with no `=`. */
  function EncodeNoPad(b: seq<byte>): (r: string)
    ensures r == EncodeDigits(b)
    ensures |r| == (4 * |b| + 2) / 3
    ensures IsUrlSafe(r)
  {
    StripPaddingOfPadded(EncodeDigits(b), Padding(|b|));
    StripPadding(Encode(b))
  }

  /** Decoding of padding-free URL-safe text; `None` for a character outside
      the alphabet or a length that no byte string encodes to. */
  function DecodeNoPad(s: string): (r: Option<seq<byte>>)
    decreases |s|
  {
    if !IsUrlSafe(s) || |s| % 4 == 1 then None
    else if |s| == 0 then Some([])
    else if |s| == 2 then
      var a, b := SextetValue(s[0]), SextetValue(s[1]);
      Some([a * 4 + b / 16])
    else if |s| == 3 then
      var a, b, c := SextetValue(s[0]), SextetValue(s[1]), SextetValue(s[2]);
      Some([a * 4 + b / 16, (b % 16) * 16 + c / 4])
    else
      match DecodeNoPad(s[4..])
      case None => None
      case Some(rest) => Some(DecodeGroup(s[..4]) + rest)
  }

  /** The three bytes four characters of the alphabet stand for. */
  function DecodeGroup(g: string): (r: seq<byte>)
    requires |g| == 4 && IsUrlSafe(g)
    ensures |r| == 3
  {
    var a, b, c, d := SextetValue(g[0]), SextetValue(g[1]), SextetValue(g[2]), SextetValue(g[3]);
    [a * 4 + b / 16, (b % 16) * 16 + c / 4, (c % 4) * 64 + d]
  }

  lemma GroupRoundTrip(x: byte, y: byte, z: byte)
    ensures var a, b, c, d := x / 4, (x % 4) * 16 + y / 16, (y % 16) * 4 + z / 64, z % 64;
      && a * 4 + b / 16 == x
      && (b % 16) * 16 + c / 4 == y
      && (c % 4) * 64 + d == z
  {
  }

  lemma DecodeOneByte(x: byte)
    ensures DecodeNoPad(EncodeDigits([x])) == Some([x])
  {
    var p := (x % 4) * 16;
    SextetRoundTrip(x / 4);
    SextetRoundTrip(p);
    assert EncodeDigits([x]) == [SextetChar(x / 4), SextetChar(p)];
  }

  lemma DecodeTwoBytes(x: byte, y: byte)
    ensures DecodeNoPad(EncodeDigits([x, y])) == Some([x, y])
  {
    var p, q := (x % 4) * 16 + y / 16, (y % 16) * 4;
    GroupRoundTrip(x, y, 0);
    SextetRoundTrip(x / 4);
    SextetRoundTrip(p);
    SextetRoundTrip(q);
    assert EncodeDigits([x, y]) == [SextetChar(x / 4), SextetChar(p), SextetChar(q)];
  }

  lemma DecodeStep(s: string, rest: seq<byte>)
    requires IsUrlSafe(s) && |s| >= 4 && |s| % 4 != 1
    requires DecodeNoPad(s[4..]) == Some(rest)
    ensures DecodeNoPad(s) == Some(DecodeGroup(s[..4]) + rest)
  {
  }

  /** No byte string encodes to a length of the form 4k + 1. */
  lemma EncodedLengthMod4(n: nat)
    ensures ((4 * n + 2) / 3) % 4 != 1
  {
    var k := n / 3;
    if n % 3 == 0 {
      assert (4 * n + 2) / 3 == 4 * k;
    } else if n % 3 == 1 {
      assert (4 * n + 2) / 3 == 4 * k + 2;
    } else {
      assert (4 * n + 2) / 3 == 4 * k + 3;
    }
  }

  /** The four characters a full group of three bytes encodes to. */
  function GroupChars(x: byte, y: byte, z: byte): string {
    [SextetChar(x / 4), SextetChar((x % 4) * 16 + y / 16), SextetChar((y % 16) * 4 + z / 64), SextetChar(z % 64)]
  }

  lemma EncodeStep(b: seq<byte>)
    requires |b| >= 3
    ensures EncodeDigits(b) == GroupChars(b[0], b[1], b[2]) + EncodeDigits(b[3..])
  {
  }

  lemma PrependGroup(g: string, tail: string)
    requires |g| == 4 && IsUrlSafe(g) && IsUrlSafe(tail) && |tail| % 4 != 1
    ensures IsUrlSafe(g + tail) && |g + tail| % 4 != 1 && |g + tail| >= 4
    ensures (g + tail)[4..] == tail
  {
    var s := g + tail;
    forall i | 0 <= i < |s|
      ensures IsUrlSafeChar(s[i])
    {
      if i < 4 { assert s[i] == g[i]; } else { assert s[i] == tail[i - 4]; }
    }
  }

  lemma GroupDecodes(x: byte, y: byte, z: byte)
    ensures |GroupChars(x, y, z)| == 4 && IsUrlSafe(GroupChars(x, y, z))
    ensures DecodeGroup(GroupChars(x, y, z)) == [x, y, z]
  {
    var o, p, q, r := x / 4, (x % 4) * 16 + y / 16, (y % 16) * 4 + z / 64, z % 64;
    SextetRoundTrip(o);
    SextetRoundTrip(p);
    SextetRoundTrip(q);
    SextetRoundTrip(r);
    GroupRoundTrip(x, y, z);
  }

  lemma DecodeQuad(x: byte, y: byte, z: byte, tail: string, rest: seq<byte>)
    requires IsUrlSafe(tail) && |tail| % 4 != 1
    requires DecodeNoPad(tail) == Some(rest)
    ensures DecodeNoPad(GroupChars(x, y, z) + tail) == Some([x, y, z] + rest)
  {
    var g := GroupChars(x, y, z);
    GroupDecodes(x, y, z);
    PrependGroup(g, tail);
    var s := g + tail;
    assert s[..4] == g;
    DecodeStep(s, rest);
  }

  lemma DecodeLonger(b: seq<byte>, tail: string)
    requires |b| >= 3 && IsUrlSafe(tail) && |tail| % 4 != 1
    requires DecodeNoPad(tail) == Some(b[3..])
    ensures DecodeNoPad(GroupChars(b[0], b[1], b[2]) + tail) == Some(b)
  {
    var x, y, z, rest := b[0], b[1], b[2], b[3..];
    DecodeQuad(x, y, z, tail, rest);
    SplitGroup(b);
  }

  lemma SplitGroup(b: seq<byte>)
    requires |b| >= 3
    ensures b == [b[0], b[1], b[2]] + b[3..]
  {
  }

  lemma {:induction false} DecodeEncodeDigits(b: seq<byte>)
    ensures DecodeNoPad(EncodeDigits(b)) == Some(b)
    decreases |b|
  {
    if |b| >= 3 {
      DecodeEncodeDigits(b[3..]);
      EncodeStep(b);
      EncodedLengthMod4(|b| - 3);
      DecodeLonger(b, EncodeDigits(b[3..]));
    } else if |b| == 2 {
      assert b == [b[0], b[1]];
      DecodeTwoBytes(b[0], b[1]);
    } else if |b| == 1 {
      assert b == [b[0]];
      DecodeOneByte(b[0]);
    }
  }

  /** Decoding undoes padding-free encoding, so the encoded text determines the bytes. */
  lemma DecodeEncodeNoPad(b: seq<byte>)
    ensures DecodeNoPad(EncodeNoPad(b)) == Some(b)
  {
    DecodeEncodeDigits(b);
  }

  /** The bits of the last digit that no byte uses are zero, as every
      encoder writes them: four of them after one trailing byte, two after
      two. */
  predicate ZeroUnusedBits(s: string)
    requires IsUrlSafe(s)
  {
    if |s| % 4 == 2 then SextetValue(s[|s| - 1]) % 16 == 0
    else if |s| % 4 == 3 then SextetValue(s[|s| - 1]) % 4 == 0
    else true
  }

  lemma OneByteZeroUnusedBits(x: byte)
    ensures ZeroUnusedBits(EncodeDigits([x]))
  {
    var p := (x % 4) * 16;
    var r := EncodeDigits([x]);
    assert r == [SextetChar(x / 4), SextetChar(p)];
    SextetRoundTrip(p);
    assert SextetValue(r[1]) == p;
  }

  lemma TwoBytesZeroUnusedBits(x: byte, y: byte)
    ensures ZeroUnusedBits(EncodeDigits([x, y]))
  {
    var q := (y % 16) * 4;
    var r := EncodeDigits([x, y]);
    assert r == [SextetChar(x / 4), SextetChar((x % 4) * 16 + y / 16), SextetChar(q)];
    SextetRoundTrip(q);
    assert SextetValue(r[2]) == q;
  }

  /** Every encoding leaves the unused bits zero. */
  lemma {:induction false} EncodeDigitsZeroUnusedBits(b: seq<byte>)
    ensures ZeroUnusedBits(EncodeDigits(b))
    decreases |b|
  {
    if |b| == 1 {
      assert b == [b[0]];
      OneByteZeroUnusedBits(b[0]);
    } else if |b| == 2 {
      assert b == [b[0], b[1]];
      TwoBytesZeroUnusedBits(b[0], b[1]);
    } else if |b| >= 3 {
      var g := GroupChars(b[0], b[1], b[2]);
      EncodeDigitsZeroUnusedBits(b[3..]);
      EncodeStep(b);
      GroupDecodes(b[0], b[1], b[2]);
      ZeroUnusedBitsAfterGroup(g, EncodeDigits(b[3..]));
    }
  }

  /** A full group in front does not change which bits are unused. */
  lemma ZeroUnusedBitsAfterGroup(g: string, t: string)
    requires |g| == 4 && IsUrlSafe(g) && IsUrlSafe(t)
    ensures IsUrlSafe(g + t) && (ZeroUnusedBits(g + t) <==> ZeroUnusedBits(t))
  {
    var s := g + t;
    assert forall i :: 0 <= i < |s| ==> IsUrlSafeChar(s[i]) by {
      forall i | 0 <= i < |s| ensures IsUrlSafeChar(s[i]) {
        if i < 4 { assert s[i] == g[i]; } else { assert s[i] == t[i - 4]; }
      }
    }
    assert |s| % 4 == |t| % 4;
    if |t| > 0 {
      assert s[|s| - 1] == t[|t| - 1];
    }
  }

  lemma EncodeAfterGroup(r: seq<byte>, rest: seq<byte>)
    requires |r| == 3
    ensures EncodeDigits(r + rest) == GroupChars(r[0], r[1], r[2]) + EncodeDigits(rest)
  {
    var b := r + rest;
    EncodeStep(b);
    assert b[0] == r[0] && b[1] == r[1] && b[2] == r[2] && b[3..] == rest;
  }

  /** Bytes assembled from four sextets split back into the same sextets. */
  lemma GroupArith(a: nat, b: nat, c: nat, d: nat, x: int, y: int, z: int)
    requires a < 64 && b < 64 && c < 64 && d < 64
    requires x == a * 4 + b / 16 && y == (b % 16) * 16 + c / 4 && z == (c % 4) * 64 + d
    ensures x / 4 == a && (x % 4) * 16 + y / 16 == b && (y % 16) * 4 + z / 64 == c && z % 64 == d
  {
    var b1, b2, c1, c2 := b / 16, b % 16, c / 4, c % 4;
    assert b == b1 * 16 + b2 && c == c1 * 4 + c2;
    assert x / 4 == a && x % 4 == b1;
    assert y / 16 == b2 && y % 16 == c1;
    assert z / 64 == c2 && z % 64 == d;
  }

  /** Four alphabet characters are the encoding of the three bytes they
      stand for. */
  lemma GroupCharsOfDecode(g: string)
    requires |g| == 4 && IsUrlSafe(g)
    ensures var r := DecodeGroup(g); GroupChars(r[0], r[1], r[2]) == g
  {
    var a, b, c, d := SextetValue(g[0]), SextetValue(g[1]), SextetValue(g[2]), SextetValue(g[3]);
    var r := DecodeGroup(g);
    GroupArith(a, b, c, d, r[0], r[1], r[2]);
    var x, y, z := r[0], r[1], r[2];
    assert GroupChars(x, y, z) == [SextetChar(a), SextetChar(b), SextetChar(c), SextetChar(d)];
  }

  /** Two characters with zero unused bits encode the byte they stand for. */
  lemma ShortOne(s: string)
    requires |s| == 2 && IsUrlSafe(s) && SextetValue(s[1]) % 16 == 0
    ensures DecodeNoPad(s).Some? && EncodeDigits(DecodeNoPad(s).value) == s
  {
    var a, b := SextetValue(s[0]), SextetValue(s[1]);
    var x := a * 4 + b / 16;
    assert DecodeNoPad(s) == Some([x]);
    GroupArith(a, b, 0, 0, x, 0, 0);
    assert x / 4 == a && (x % 4) * 16 == b;
    assert EncodeDigits([x]) == [SextetChar(x / 4), SextetChar((x % 4) * 16)];
    assert [SextetChar(a), SextetChar(b)] == s;
  }

  /** Three characters with zero unused bits encode the two bytes they stand for. */
  lemma ShortTwo(s: string)
    requires |s| == 3 && IsUrlSafe(s) && SextetValue(s[2]) % 4 == 0
    ensures DecodeNoPad(s).Some? && EncodeDigits(DecodeNoPad(s).value) == s
  {
    var a, b, c := SextetValue(s[0]), SextetValue(s[1]), SextetValue(s[2]);
    var x, y := a * 4 + b / 16, (b % 16) * 16 + c / 4;
    assert DecodeNoPad(s) == Some([x, y]);
    GroupArith(a, b, c, 0, x, y, 0);
    assert x / 4 == a && (x % 4) * 16 + y / 16 == b && (y % 16) * 4 == c;
    assert EncodeDigits([x, y]) == [SextetChar(x / 4), SextetChar((x % 4) * 16 + y / 16), SextetChar((y % 16) * 4)];
    assert [SextetChar(a), SextetChar(b), SextetChar(c)] == s;
  }

  /** The other round trip: padding-free text whose unused bits are zero is
      the encoding of what it decodes to. So, of the texts that decode to the
      same bytes, exactly one is what `urlsafe_b64encode` writes. */
  lemma {:induction false} EncodeDecodeNoPad(s: string)
    requires IsUrlSafe(s) && ZeroUnusedBits(s) && DecodeNoPad(s).Some?
    ensures EncodeNoPad(DecodeNoPad(s).value) == s
    decreases |s|
  {
    if |s| == 2 {
      ShortOne(s);
    } else if |s| == 3 {
      ShortTwo(s);
    } else if |s| >= 4 {
      var g, t := s[..4], s[4..];
      assert s == g + t;
      assert IsUrlSafe(g) && IsUrlSafe(t);
      ZeroUnusedBitsAfterGroup(g, t);
      assert DecodeNoPad(t).Some?;
      var rest := DecodeNoPad(t).value;
      EncodeDecodeNoPad(t);
      DecodeStep(s, rest);
      var r := DecodeGroup(g);
      GroupCharsOfDecode(g);
      EncodeAfterGroup(r, rest);
      assert DecodeNoPad(s).value == r + rest;
      assert EncodeNoPad(r + rest) == EncodeDigits(r + rest);
      assert EncodeDigits(rest) == t;
      assert GroupChars(r[0], r[1], r[2]) + EncodeDigits(rest) == s;
    } else {
      assert DecodeNoPad(s) == Some([]);
      assert EncodeDigits([]) == s;
    }
  }

  /** A 32-byte value (a SHA-256 digest, a Fernet key's material) encodes to
      43 alphabet characters and one `=` of padding. */
  lemma ThirtyTwoBytes(b: seq<byte>)
    requires |b| == 32
    ensures |EncodeNoPad(b)| == 43
    ensures Encode(b) == EncodeNoPad(b) + "="
  {
  }

  // ------------------------------------------------------ lenient decoding

  /** What one character is to `base64.urlsafe_b64decode`, which maps `-` to
      `+` and `_` to `/` and hands the text to `binascii.a2b_base64` in its
      non-strict mode: a digit of either alphabet, the pad `=`, or something
      that is skipped (any other character, including whitespace and the
      bytes of a non-ASCII character). */
  datatype Lexeme = Digit(v: nat) | Pad | Skipped

  function LexemeOf(c: char): (l: Lexeme)
    ensures l.Digit? ==> l.v < 64
    ensures IsUrlSafeChar(c) ==> l == Digit(SextetValue(c))
    ensures l == Pad <==> c == '='
  {
    if IsUrlSafeChar(c) then Digit(SextetValue(c))
    else if c == '+' then Digit(62)
    else if c == '/' then Digit(63)
    else if c == '=' then Pad
    else Skipped
  }

  /** The decoder's registers: the position within the group of four, the
      bits left over from the last digit, the pads seen since the last
      digit, and the bytes produced. */
  datatype Decoder = Decoder(quad: nat, left: nat, pads: nat, out: seq<byte>)

  /** The decoder after some characters: still reading, or stopped by a
      complete pad sequence, which ends the input. */
  datatype Scan = Reading(d: Decoder) | Stopped(out: seq<byte>)

  /** One character through the loop of `a2b_base64`. A pad counts only in
      the third or fourth position and stops the decoder once the group is
      full; each digit emits the byte it completes, truncated to eight bits
      as the C store does. */
  function Feed(d: Decoder, c: char): (r: Scan)
    ensures LexemeOf(c) == Skipped ==> r == Reading(d)
  {
    match LexemeOf(c)
    case Skipped => Reading(d)
    case Pad =>
      if d.quad < 2 then Reading(d)
      else if d.quad + d.pads + 1 >= 4 then Stopped(d.out)
      else Reading(d.(pads := d.pads + 1))
    case Digit(v) =>
      if d.quad == 0 then Reading(Decoder(1, v, 0, d.out))
      else if d.quad == 1 then Reading(Decoder(2, v % 16, 0, d.out + [(d.left * 4 + v / 16) % 256]))
      else if d.quad == 2 then Reading(Decoder(3, v % 4, 0, d.out + [(d.left * 16 + v / 4) % 256]))
      else Reading(Decoder(0, 0, 0, d.out + [(d.left * 64 + v) % 256]))
  }

  function Run(s: string, d: Decoder): Scan
    decreases |s|
  {
    if |s| == 0 then Reading(d)
    else match Feed(d, s[0])
      case Stopped(out) => Stopped(out)
      case Reading(next) => Run(s[1..], next)
  }

  /** The end of the input: a stopped decoder has its bytes, a running one
      has them only at a group boundary (otherwise "Incorrect padding", or a
      lone digit). */
  function Finish(r: Scan): Option<seq<byte>> {
    match r
    case Stopped(out) => Some(out)
    case Reading(d) => if d.quad == 0 then Some(d.out) else None
  }

  const Start: Decoder := Decoder(0, 0, 0, [])

  /** `base64.urlsafe_b64decode`; `None` is `binascii.Error`. */
  function LenientDecode(s: string): Option<seq<byte>> {
    Finish(Run(s, Start))
  }

  /** Reading two texts one after the other is reading their concatenation. */
  lemma {:induction false} RunAppend(a: string, b: string, d: Decoder)
    ensures Run(a + b, d) == match Run(a, d) case Stopped(out) => Stopped(out) case Reading(next) => Run(b, next)
    decreases |a|
  {
    if |a| == 0 {
      assert a + b == b;
    } else {
      assert (a + b)[0] == a[0] && (a + b)[1..] == a[1..] + b;
      match Feed(d, a[0])
      case Stopped(out) =>
      case Reading(next) => RunAppend(a[1..], b, next);
    }
  }

  /** Texts whose characters mean the same, position by position, decode
      alike: the two alphabets, and skipped characters of any kind, are
      interchangeable. */
  lemma {:induction false} SameLexemesSameRun(a: string, b: string, d: Decoder)
    requires |a| == |b| && forall i :: 0 <= i < |a| ==> LexemeOf(a[i]) == LexemeOf(b[i])
    ensures Run(a, d) == Run(b, d)
    decreases |a|
  {
    if |a| > 0 {
      assert LexemeOf(a[0]) == LexemeOf(b[0]);
      assert Feed(d, a[0]) == Feed(d, b[0]);
      match Feed(d, a[0])
      case Stopped(out) =>
      case Reading(next) =>
        assert forall i :: 0 <= i < |a[1..]| ==> LexemeOf(a[1..][i]) == LexemeOf(b[1..][i]) by {
          forall i | 0 <= i < |a[1..]| ensures LexemeOf(a[1..][i]) == LexemeOf(b[1..][i]) {
            assert a[1..][i] == a[i + 1] && b[1..][i] == b[i + 1];
          }
        }
        SameLexemesSameRun(a[1..], b[1..], next);
    }
  }

  /** A digit of the URL-safe alphabet reads as its own value. */
  lemma LexemeOfSextet(v: nat)
    requires v < 64
    ensures LexemeOf(SextetChar(v)) == Digit(v)
  {
    SextetRoundTrip(v);
  }

  lemma FeedFirst(d: Decoder, v: nat)
    requires d.quad == 0 && v < 64
    ensures Feed(d, SextetChar(v)) == Reading(Decoder(1, v, 0, d.out))
  {
    LexemeOfSextet(v);
  }

  lemma FeedSecond(left: nat, v: nat, out: seq<byte>, x: byte)
    requires v < 64 && left * 4 + v / 16 == x
    ensures Feed(Decoder(1, left, 0, out), SextetChar(v)) == Reading(Decoder(2, v % 16, 0, out + [x]))
  {
    LexemeOfSextet(v);
  }

  lemma FeedThird(left: nat, v: nat, out: seq<byte>, y: byte)
    requires v < 64 && left * 16 + v / 4 == y
    ensures Feed(Decoder(2, left, 0, out), SextetChar(v)) == Reading(Decoder(3, v % 4, 0, out + [y]))
  {
    LexemeOfSextet(v);
  }

  lemma FeedFourth(left: nat, v: nat, out: seq<byte>, z: byte)
    requires v < 64 && left * 64 + v == z
    ensures Feed(Decoder(3, left, 0, out), SextetChar(v)) == Reading(Decoder(0, 0, 0, out + [z]))
  {
    LexemeOfSextet(v);
  }

  /** One step of `Run` on a suffix. */
  lemma RunStep(s: string, k: nat, d: Decoder)
    requires k < |s|
    ensures Run(s[k..], d) == match Feed(d, s[k]) case Stopped(out) => Stopped(out) case Reading(next) => Run(s[k + 1..], next)
  {
    assert s[k..][0] == s[k];
    assert s[k..][1..] == s[k + 1..];
  }

  /** Four digits whose values carry three bytes, from a group boundary,
      emit the bytes and end at the next boundary. */
  lemma RunQuad(o: nat, p: nat, q: nat, r: nat, x: byte, y: byte, z: byte, out: seq<byte>)
    requires o < 64 && p < 64 && q < 64 && r < 64
    requires o * 4 + p / 16 == x && (p % 16) * 16 + q / 4 == y && (q % 4) * 64 + r == z
    ensures Run([SextetChar(o), SextetChar(p), SextetChar(q), SextetChar(r)], Decoder(0, 0, 0, out))
      == Reading(Decoder(0, 0, 0, out + [x, y, z]))
  {
    var g := [SextetChar(o), SextetChar(p), SextetChar(q), SextetChar(r)];
    var d0 := Decoder(0, 0, 0, out);
    var d1 := Decoder(1, o, 0, out);
    var d2 := Decoder(2, p % 16, 0, out + [x]);
    var d3 := Decoder(3, q % 4, 0, out + [x, y]);
    FeedFirst(d0, o);
    FeedSecond(o, p, out, x);
    FeedThird(p % 16, q, out + [x], y);
    FeedFourth(q % 4, r, out + [x, y], z);
    assert out + [x, y] + [z] == out + [x, y, z];
    assert out + [x] + [y] == out + [x, y];
    RunStep(g, 3, d3);
    assert g[4..] == [];
    RunStep(g, 2, d2);
    RunStep(g, 1, d1);
    RunStep(g, 0, d0);
    assert g[0..] == g;
  }

  /** Four digits of a full group, from a group boundary, emit its three
      bytes and end at the next boundary. */
  lemma RunGroup(x: byte, y: byte, z: byte, out: seq<byte>)
    ensures Run(GroupChars(x, y, z), Decoder(0, 0, 0, out)) == Reading(Decoder(0, 0, 0, out + [x, y, z]))
  {
    GroupRoundTrip(x, y, z);
    RunQuad(x / 4, (x % 4) * 16 + y / 16, (y % 16) * 4 + z / 64, z % 64, x, y, z, out);
  }

  /** The last group of two bytes with `e` in the two bits the encoding
      leaves unused, and its pad. */
  function TailTwo(x: byte, y: byte, e: nat): string
    requires e < 4
  {
    [SextetChar(x / 4), SextetChar((x % 4) * 16 + y / 16), SextetChar((y % 16) * 4 + e), '=']
  }

  /** The last group of one byte with `e` in the four unused bits, and its
      two pads. */
  function TailOne(x: byte, e: nat): string
    requires e < 16
  {
    [SextetChar(x / 4), SextetChar((x % 4) * 16 + e), '=', '=']
  }

  lemma TailTwoArith(x: byte, y: byte, e: nat)
    requires e < 4
    ensures var p, q := (x % 4) * 16 + y / 16, (y % 16) * 4 + e;
      (x / 4) * 4 + p / 16 == x && (p % 16) * 16 + q / 4 == y
  {
    var p, q := (x % 4) * 16 + y / 16, (y % 16) * 4 + e;
    assert p / 16 == x % 4 && p % 16 == y / 16;
    assert q / 4 == y % 16;
  }

  /** A two-byte last group stops the decoder with its two bytes, whatever
      the unused bits hold. */
  lemma RunTailTwo(x: byte, y: byte, e: nat, out: seq<byte>)
    requires e < 4
    ensures Run(TailTwo(x, y, e), Decoder(0, 0, 0, out)) == Stopped(out + [x, y])
  {
    var t := TailTwo(x, y, e);
    var o, p, q := x / 4, (x % 4) * 16 + y / 16, (y % 16) * 4 + e;
    TailTwoArith(x, y, e);
    var d0 := Decoder(0, 0, 0, out);
    var d1 := Decoder(1, o, 0, out);
    var d2 := Decoder(2, p % 16, 0, out + [x]);
    var d3 := Decoder(3, q % 4, 0, out + [x, y]);
    FeedFirst(d0, o);
    FeedSecond(o, p, out, x);
    FeedThird(p % 16, q, out + [x], y);
    assert out + [x] + [y] == out + [x, y];
    assert Feed(d3, t[3]) == Stopped(out + [x, y]);
    RunStep(t, 3, d3);
    RunStep(t, 2, d2);
    RunStep(t, 1, d1);
    RunStep(t, 0, d0);
    assert t[0..] == t;
  }

  /** A one-byte last group stops the decoder with its byte, whatever the
      unused bits hold. */
  lemma RunTailOne(x: byte, e: nat, out: seq<byte>)
    requires e < 16
    ensures Run(TailOne(x, e), Decoder(0, 0, 0, out)) == Stopped(out + [x])
  {
    var t := TailOne(x, e);
    var o, p := x / 4, (x % 4) * 16 + e;
    assert p / 16 == x % 4;
    var d0 := Decoder(0, 0, 0, out);
    var d1 := Decoder(1, o, 0, out);
    var d2 := Decoder(2, p % 16, 0, out + [x]);
    FeedFirst(d0, o);
    FeedSecond(o, p, out, x);
    assert Feed(d2, t[2]) == Reading(d2.(pads := 1));
    assert Feed(d2.(pads := 1), t[3]) == Stopped(out + [x]);
    RunStep(t, 3, d2.(pads := 1));
    RunStep(t, 2, d2);
    RunStep(t, 1, d1);
    RunStep(t, 0, d0);
    assert t[0..] == t;
  }

  /** The padded encoding with `e` in the unused bits of its last digit
      (reduced to the bits there are); `e = 0` is `Encode`. */
  function EncodeLoose(b: seq<byte>, e: nat): string
    decreases |b|
  {
    if |b| == 0 then ""
    else if |b| == 1 then TailOne(b[0], e % 16)
    else if |b| == 2 then TailTwo(b[0], b[1], e % 4)
    else GroupChars(b[0], b[1], b[2]) + EncodeLoose(b[3..], e)
  }

  lemma {:induction false} EncodeLooseZero(b: seq<byte>)
    ensures EncodeLoose(b, 0) == Encode(b)
    decreases |b|
  {
    if |b| >= 3 {
      EncodeStep(b);
      EncodeLooseZero(b[3..]);
      assert Padding(|b|) == Padding(|b| - 3);
    }
  }

  /** The lenient decoder recovers the bytes of every loose encoding, so it
      inverts `Encode` and ignores the unused bits of the last digit. */
  lemma {:induction false} RunEncodeLoose(b: seq<byte>, e: nat, out: seq<byte>)
    ensures Finish(Run(EncodeLoose(b, e), Decoder(0, 0, 0, out))) == Some(out + b)
    decreases |b|
  {
    if |b| == 0 {
      assert out + b == out;
    } else if |b| == 1 {
      RunTailOne(b[0], e % 16, out);
      assert [b[0]] == b;
    } else if |b| == 2 {
      RunTailTwo(b[0], b[1], e % 4, out);
      assert [b[0], b[1]] == b;
    } else {
      RunEncodeLoose(b[3..], e, out + [b[0], b[1], b[2]]);
      RunLooseGroup(b, e, out);
    }
  }

  /** A loose encoding of more than two bytes starts with a full group,
      which the decoder consumes before the rest. */
  lemma RunLooseGroup(b: seq<byte>, e: nat, out: seq<byte>)
    requires |b| >= 3
    ensures Run(EncodeLoose(b, e), Decoder(0, 0, 0, out))
      == Run(EncodeLoose(b[3..], e), Decoder(0, 0, 0, out + [b[0], b[1], b[2]]))
    ensures out + [b[0], b[1], b[2]] + b[3..] == out + b
  {
    var g := GroupChars(b[0], b[1], b[2]);
    var tail := EncodeLoose(b[3..], e);
    assert EncodeLoose(b, e) == g + tail;
    RunAppend(g, tail, Decoder(0, 0, 0, out));
    RunGroup(b[0], b[1], b[2], out);
    assert out + [b[0], b[1], b[2]] + b[3..] == out + b by {
      SplitGroup(b);
    }
  }

  /** `urlsafe_b64decode(urlsafe_b64encode(b)) == b`, through the lenient
      decoder. */
  lemma LenientDecodeEncode(b: seq<byte>)
    ensures LenientDecode(Encode(b)) == Some(b)
  {
    EncodeLooseZero(b);
    RunEncodeLoose(b, 0, []);
    assert [] + b == b;
  }

  /** The same text in the standard alphabet of section 4 of RFC 4648: `-`
      written as `+` and `_` as `/`. */
  function ToStandard(s: string): (r: string)
    ensures |r| == |s|
    ensures forall i :: 0 <= i < |s| ==> r[i] == (if s[i] == '-' then '+' else if s[i] == '_' then '/' else s[i])
  {
    seq(|s|, i requires 0 <= i < |s| => if s[i] == '-' then '+' else if s[i] == '_' then '/' else s[i])
  }

  lemma ToStandardSameLexemes(s: string)
    ensures |ToStandard(s)| == |s| && forall i :: 0 <= i < |s| ==> LexemeOf(ToStandard(s)[i]) == LexemeOf(s[i])
  {
  }

  /** Loose encodings of a two-byte last group that differ in the unused
      bits are different texts. */
  lemma {:induction false} EncodeLooseDiffers(b: seq<byte>, e1: nat, e2: nat)
    requires |b| % 3 == 2 && e1 % 4 != e2 % 4
    ensures EncodeLoose(b, e1) != EncodeLoose(b, e2)
    decreases |b|
  {
    if |b| == 2 {
      var q1, q2 := (b[1] % 16) * 4 + e1 % 4, (b[1] % 16) * 4 + e2 % 4;
      SextetRoundTrip(q1);
      SextetRoundTrip(q2);
      assert EncodeLoose(b, e1)[2] == SextetChar(q1);
      assert EncodeLoose(b, e2)[2] == SextetChar(q2);
    } else {
      EncodeLooseDiffers(b[3..], e1, e2);
      var g := GroupChars(b[0], b[1], b[2]);
      assert (g + EncodeLoose(b[3..], e1))[4..] == EncodeLoose(b[3..], e1);
      assert (g + EncodeLoose(b[3..], e2))[4..] == EncodeLoose(b[3..], e2);
    }
  }
}
