/**
 * Standard base64 with padding (the alphabet of Table 1 in section 4 of RFC 4648), as the
 * standard library's `StdEncoding.DecodeString` reads it: carriage returns and line feeds are
 * skipped, the text must come in whole groups of four, and `=` may only pad the last group.
 * Like the library outside strict mode, the unused bits before padding are not checked.
 */
module Base64 {
  import opened Wrappers

  newtype byte = x: int | 0 <= x < 256

  type Sextet = x: int | 0 <= x < 64

  predicate IsBase64Char(c: char) {
    ('A' <= c <= 'Z') || ('a' <= c <= 'z') || ('0' <= c <= '9') || c == '+' || c == '/'
  }

  /** The character that encodes the six bits `v`. */
  function CharOf(v: Sextet): (c: char)
    ensures IsBase64Char(c)
  {
    if v < 26 then ('A' as int + v) as char
    else if v < 52 then ('a' as int + (v - 26)) as char
    else if v < 62 then ('0' as int + (v - 52)) as char
    else if v == 62 then '+'
    else '/'
  }

  /** The six bits a character of the alphabet encodes. */
  function ValueOf(c: char): (v: Sextet)
    requires IsBase64Char(c)
    ensures CharOf(v) == c
  {
    if 'A' <= c <= 'Z' then c as int - 'A' as int
    else if 'a' <= c <= 'z' then c as int - 'a' as int + 26
    else if '0' <= c <= '9' then c as int - '0' as int + 52
    else if c == '+' then 62
    else 63
  }

  /** Each six-bit value has exactly one character, and reading it back gives the value. */
  lemma ValueOfCharOf(v: Sextet)
    ensures ValueOf(CharOf(v)) == v
  {
  }

  /** Three bytes as four characters. */
  function EncodeGroup(a: byte, b: byte, c: byte): string {
    [CharOf(a as int / 4), CharOf((a as int % 4) * 16 + b as int / 16),
     CharOf((b as int % 16) * 4 + c as int / 64), CharOf(c as int % 64)]
  }

  /** `StdEncoding.EncodeToString`: whole groups of three, then a last group of one or two bytes padded with `=`. */
  function Encode(bs: seq<byte>): (s: string)
    ensures |s| % 4 == 0
    ensures forall i | 0 <= i < |s| :: s[i] != '\r' && s[i] != '\n'
    decreases |bs|
  {
    if |bs| == 0 then ""
    else if |bs| == 1 then
      [CharOf(bs[0] as int / 4), CharOf((bs[0] as int % 4) * 16)] + "=="
    else if |bs| == 2 then
      [CharOf(bs[0] as int / 4), CharOf((bs[0] as int % 4) * 16 + bs[1] as int / 16),
       CharOf((bs[1] as int % 16) * 4)] + "="
    else
      EncodeGroup(bs[0], bs[1], bs[2]) + Encode(bs[3..])
  }

  /** The text with every carriage return and line feed removed. */
  function Strip(s: string): (t: string)
    ensures forall i | 0 <= i < |t| :: t[i] != '\r' && t[i] != '\n'
  {
    if s == [] then []
    else if s[0] == '\r' || s[0] == '\n' then Strip(s[1..])
    else [s[0]] + Strip(s[1..])
  }

  /** A group of four alphabet characters as three bytes. */
  function DecodeGroup(q: string): seq<byte>
    requires |q| == 4 && forall i | 0 <= i < 4 :: IsBase64Char(q[i])
  {
    var v0, v1, v2, v3 := ValueOf(q[0]), ValueOf(q[1]), ValueOf(q[2]), ValueOf(q[3]);
    [(v0 * 4 + v1 / 16) as byte, ((v1 % 16) * 16 + v2 / 4) as byte, ((v2 % 4) * 64 + v3) as byte]
  }

  /** The last group: four characters, or three and `=`, or two and `==`. */
  function DecodeLast(q: string): Option<seq<byte>>
    requires |q| == 4
  {
    if forall i | 0 <= i < 4 :: IsBase64Char(q[i]) then Some(DecodeGroup(q))
    else if IsBase64Char(q[0]) && IsBase64Char(q[1]) && IsBase64Char(q[2]) && q[3] == '=' then
      var v0, v1, v2 := ValueOf(q[0]), ValueOf(q[1]), ValueOf(q[2]);
      Some([(v0 * 4 + v1 / 16) as byte, ((v1 % 16) * 16 + v2 / 4) as byte])
    else if IsBase64Char(q[0]) && IsBase64Char(q[1]) && q[2] == '=' && q[3] == '=' then
      var v0, v1 := ValueOf(q[0]), ValueOf(q[1]);
      Some([(v0 * 4 + v1 / 16) as byte])
    else None
  }

  /** Text free of line breaks, group by group. */
  function DecodeGroups(t: string): Option<seq<byte>>
    decreases |t|
  {
    if |t| == 0 then Some([])
    else if |t| < 4 then None
    else if |t| == 4 then DecodeLast(t)
    else if forall i | 0 <= i < 4 :: IsBase64Char(t[i]) then
      match DecodeGroups(t[4..])
      case None => None
      case Some(rest) => Some(DecodeGroup(t[..4]) + rest)
    else None
  }

  /** `StdEncoding.DecodeString`. */
  function Decode(s: string): (r: Option<seq<byte>>)
    ensures r.Some? ==> |Strip(s)| % 4 == 0
  {
    var t := Strip(s);
    DecodeGroupsLength(t);
    DecodeGroups(t)
  }

  lemma {:induction false} DecodeGroupsLength(t: string)
    ensures DecodeGroups(t).Some? ==> |t| % 4 == 0
    decreases |t|
  {
    if |t| > 4 {
      DecodeGroupsLength(t[4..]);
    }
  }

  /** Text with no line breaks is left as it is. */
  lemma {:induction false} StripKeeps(s: string)
    requires forall i | 0 <= i < |s| :: s[i] != '\r' && s[i] != '\n'
    ensures Strip(s) == s
  {
    if s != [] {
      StripKeeps(s[1..]);
      assert s == [s[0]] + s[1..];
    }
  }

  /** The bits of three bytes survive their split into four six-bit values. */
  lemma GroupArithmetic(a: byte, b: byte, c: byte)
    ensures var v0, v1, v2, v3 := a as int / 4, (a as int % 4) * 16 + b as int / 16, (b as int % 16) * 4 + c as int / 64, c as int % 64;
      && v0 * 4 + v1 / 16 == a as int
      && (v1 % 16) * 16 + v2 / 4 == b as int
      && (v2 % 4) * 64 + v3 == c as int
  {
  }

  /** Decoding one encoded group gives its three bytes back. */
  lemma {:induction false} DecodeEncodeGroup(a: byte, b: byte, c: byte)
    ensures var q := EncodeGroup(a, b, c);
      (forall i | 0 <= i < 4 :: IsBase64Char(q[i])) && DecodeGroup(q) == [a, b, c]
  {
    GroupArithmetic(a, b, c);
    ValueOfCharOf(a as int / 4);
    ValueOfCharOf((a as int % 4) * 16 + b as int / 16);
    ValueOfCharOf((b as int % 16) * 4 + c as int / 64);
    ValueOfCharOf(c as int % 64);
  }

  /** Decoding the encoding of any bytes gives those bytes back. */
  lemma {:induction false} DecodeEncode(bs: seq<byte>)
    ensures Decode(Encode(bs)) == Some(bs)
  {
    StripKeeps(Encode(bs));
    DecodeGroupsEncode(bs);
  }

  lemma {:induction false} DecodeGroupsEncode(bs: seq<byte>)
    ensures DecodeGroups(Encode(bs)) == Some(bs)
    decreases |bs|
  {
    if |bs| == 1 {
      assert bs == [bs[0]];
      DecodeEncodeOne(bs[0]);
    } else if |bs| == 2 {
      assert bs == [bs[0], bs[1]];
      DecodeEncodeTwo(bs[0], bs[1]);
    } else if |bs| >= 3 {
      DecodeGroupsEncode(bs[3..]);
      DecodeGroupsStep(bs);
    }
  }

  /** A whole group in front of encoded bytes decodes in front of their decoding. */
  lemma {:induction false} DecodeGroupsStep(bs: seq<byte>)
    requires |bs| >= 3 && DecodeGroups(Encode(bs[3..])) == Some(bs[3..])
    ensures DecodeGroups(Encode(bs)) == Some(bs)
  {
    var t := Encode(bs);
    DecodeEncodeGroup(bs[0], bs[1], bs[2]);
    var q := EncodeGroup(bs[0], bs[1], bs[2]);
    assert t == q + Encode(bs[3..]);
    assert t[..4] == q && t[4..] == Encode(bs[3..]);
    assert bs == [bs[0], bs[1], bs[2]] + bs[3..];
    if |bs| == 3 {
      assert t == q && bs == [bs[0], bs[1], bs[2]];
      assert DecodeLast(q) == Some(DecodeGroup(q));
    }
  }

  /** A last group of one byte, padded with `==`, decodes to that byte. */
  lemma {:induction false} DecodeEncodeOne(a: byte)
    ensures DecodeGroups(Encode([a])) == Some([a])
  {
    var v0, v1 := a as int / 4, (a as int % 4) * 16;
    GroupArithmetic(a, 0, 0);
    ValueOfCharOf(v0);
    ValueOfCharOf(v1);
    var t := Encode([a]);
    assert t == [CharOf(v0), CharOf(v1), '=', '='];
    assert !IsBase64Char(t[2]) && !IsBase64Char(t[3]);
    assert DecodeLast(t) == Some([(v0 * 4 + v1 / 16) as byte]);
  }

  /** A last group of two bytes, padded with `=`, decodes to those bytes. */
  lemma {:induction false} DecodeEncodeTwo(a: byte, b: byte)
    ensures DecodeGroups(Encode([a, b])) == Some([a, b])
  {
    var v0, v1, v2 := a as int / 4, (a as int % 4) * 16 + b as int / 16, (b as int % 16) * 4;
    GroupArithmetic(a, b, 0);
    ValueOfCharOf(v0);
    ValueOfCharOf(v1);
    ValueOfCharOf(v2);
    var t := Encode([a, b]);
    assert t == [CharOf(v0), CharOf(v1), CharOf(v2), '='];
    assert !IsBase64Char(t[3]);
    assert DecodeLast(t) == Some([(v0 * 4 + v1 / 16) as byte, ((v1 % 16) * 16 + v2 / 4) as byte]);
  }
}
