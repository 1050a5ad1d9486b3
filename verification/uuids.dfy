/**
 * UUID values as google/uuid holds them, the textual form `String()` produces and `Parse`
 * accepts, and the validator's `uuid4` rule. A UUID is kept as its 32 hexadecimal digits.
 */
module Uuids {
  import opened Wrappers
  import Ascii

  /** One hexadecimal digit. */
  type Nibble = n: nat | n < 16

  /** A 128-bit UUID as 32 hexadecimal digits, most significant first. */
  type Uuid = s: seq<Nibble> | |s| == 32 witness seq(32, i => 0)

  /** uuid.Nil, the zero value of the Go type. */
  const Nil: Uuid := [0, 0, 0, 0, 0, 0, 0, 0, 0, 0, 0, 0, 0, 0, 0, 0, 0, 0, 0, 0, 0, 0, 0, 0, 0, 0, 0, 0, 0, 0, 0, 0]

  /** The four hyphen positions of the 8-4-4-4-12 textual form. */
  predicate IsHyphenPos(p: int) {
    p == 8 || p == 13 || p == 18 || p == 23
  }

  /** Where hexadecimal digit `k` sits in the 36-character form. */
  function DigitPos(k: nat): (p: nat)
    requires k < 32
    ensures p < 36 && !IsHyphenPos(p)
  {
    if k < 8 then k else if k < 12 then k + 1 else if k < 16 then k + 2 else if k < 20 then k + 3 else k + 4
  }

  /** Which hexadecimal digit a non-hyphen position of the 36-character form holds. */
  function DigitIndex(p: nat): (k: nat)
    requires p < 36 && !IsHyphenPos(p)
    ensures k < 32 && DigitPos(k) == p
  {
    if p < 8 then p else if p < 13 then p - 1 else if p < 18 then p - 2 else if p < 23 then p - 3 else p - 4
  }

  predicate IsHexChar(c: char) {
    '0' <= c <= '9' || 'a' <= c <= 'f' || 'A' <= c <= 'F'
  }

  predicate IsLowerHexChar(c: char) {
    '0' <= c <= '9' || 'a' <= c <= 'f'
  }

  function HexValue(c: char): Nibble
    requires IsHexChar(c)
  {
    if '0' <= c <= '9' then c as int - '0' as int
    else if 'a' <= c <= 'f' then c as int - 'a' as int + 10
    else c as int - 'A' as int + 10
  }

  function LowerHexDigit(n: Nibble): char {
    "0123456789abcdef"[n]
  }

  /** `uuid.UUID.String()`: the canonical lower-case 8-4-4-4-12 form. */
  function ToString(u: Uuid): (s: string)
    ensures |s| == 36
    ensures forall p | 0 <= p < 36 && IsHyphenPos(p) :: s[p] == '-'
    ensures forall k | 0 <= k < 32 :: s[DigitPos(k)] == LowerHexDigit(u[k])
  {
    seq(36, p requires 0 <= p < 36 => if IsHyphenPos(p) then '-' else LowerHexDigit(u[DigitIndex(p)]))
  }

  /** The 36-character form `Parse` accepts: hyphens in place, hexadecimal digits of either case elsewhere. */
  predicate IsUuidText(s: string) {
    |s| == 36 && forall p | 0 <= p < 36 :: if IsHyphenPos(p) then s[p] == '-' else IsHexChar(s[p])
  }

  /** `uuid.Parse` on the canonical-length form; any other string is an error (None). */
  function Parse(s: string): Option<Uuid> {
    if IsUuidText(s) then
      Some(seq(32, k requires 0 <= k < 32 => HexValue(s[DigitPos(k)])))
    else
      None
  }

  /**
   * The validator's `uuid4` rule on a string: lower-case hexadecimal, version digit 4 and a
   * variant digit among 8, 9, a, b, in the 8-4-4-4-12 layout.
   */
  predicate IsUuid4Text(s: string) {
    && |s| == 36
    && (forall p | 0 <= p < 36 :: if IsHyphenPos(p) then s[p] == '-' else IsLowerHexChar(s[p]))
    && s[14] == '4'
    && s[19] in "89ab"
  }

  /** The validator's `required,uuid4` rule on a uuid.UUID value, which it checks on the value's text. */
  predicate IsUuid4(u: Uuid) {
    u != Nil && IsUuid4Text(ToString(u))
  }

  lemma HexValueOfLowerDigit(n: Nibble)
    ensures IsHexChar(LowerHexDigit(n)) && IsLowerHexChar(LowerHexDigit(n))
    ensures HexValue(LowerHexDigit(n)) == n
  {
  }

  lemma LowerDigitOfHexValue(c: char)
    requires IsHexChar(c)
    ensures LowerHexDigit(HexValue(c)) == Ascii.ToLower(c)
  {
  }

  /** Printing a UUID and parsing the text gives the UUID back. */
  lemma {:induction false} ParseToString(u: Uuid)
    ensures Parse(ToString(u)) == Some(u)
  {
    var s := ToString(u);
    forall p | 0 <= p < 36 && !IsHyphenPos(p)
      ensures IsHexChar(s[p])
    {
      HexValueOfLowerDigit(u[DigitIndex(p)]);
    }
    assert IsUuidText(s);
    var v := Parse(s).value;
    forall k | 0 <= k < 32 ensures v[k] == u[k] {
      HexValueOfLowerDigit(u[k]);
    }
    assert v == u;
  }

  /** Parsing accepts both letter cases; printing the result gives the text in lower case. */
  lemma {:induction false} ToStringOfParse(s: string)
    requires Parse(s).Some?
    ensures ToString(Parse(s).value) == Ascii.LowerString(s)
  {
    var u := Parse(s).value;
    var t := ToString(u);
    forall p | 0 <= p < 36 ensures t[p] == Ascii.LowerString(s)[p] {
      if !IsHyphenPos(p) {
        LowerDigitOfHexValue(s[p]);
      }
    }
  }

  /** A UUID passes `uuid4` exactly when its version digit is 4 and its variant digit is 8 to b. */
  lemma {:induction false} Uuid4Digits(u: Uuid)
    ensures IsUuid4(u) <==> u[12] == 4 && 8 <= u[16] <= 11
  {
    var s := ToString(u);
    assert DigitPos(12) == 14 && DigitPos(16) == 19;
    if u[12] == 4 && 8 <= u[16] <= 11 {
      assert u != Nil by { assert u[12] != Nil[12]; }
      forall p | 0 <= p < 36 && !IsHyphenPos(p)
        ensures IsLowerHexChar(s[p])
      {
        HexValueOfLowerDigit(u[DigitIndex(p)]);
      }
    }
  }

  /** Every string passing `uuid4` parses, to a UUID passing `uuid4` whose text is that string. */
  lemma {:induction false} Uuid4TextParses(s: string)
    requires IsUuid4Text(s)
    ensures Parse(s).Some? && IsUuid4(Parse(s).value) && ToString(Parse(s).value) == s
  {
    assert IsUuidText(s);
    var u := Parse(s).value;
    ToStringOfParse(s);
    assert Ascii.LowerString(s) == s;
    assert u[12] == 4 by { assert s[DigitPos(12)] == '4'; }
    assert 8 <= u[16] <= 11 by { assert DigitPos(16) == 19; }
    Uuid4Digits(u);
  }
}
