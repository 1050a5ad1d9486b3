/**
 * Decimal integer text as the standard library's `strconv.Atoi` reads it on a 64-bit platform,
 * and `strconv.Itoa` writes it.
 */
module Strconv {
  import opened Wrappers

  const MinInt64: int := -0x8000_0000_0000_0000
  const MaxInt64: int := 0x7fff_ffff_ffff_ffff

  predicate IsInt64(x: int) {
    MinInt64 <= x <= MaxInt64
  }

  predicate IsDigit(c: char) {
    '0' <= c <= '9'
  }

  predicate AllDigits(s: string) {
    forall i | 0 <= i < |s| :: IsDigit(s[i])
  }

  /** The value of a run of decimal digits, most significant first. */
  function DigitsValue(s: string): (v: nat)
    requires AllDigits(s)
  {
    if s == [] then 0
    else DigitsValue(s[..|s| - 1]) * 10 + (s[|s| - 1] as int - '0' as int)
  }

  /**
   * `strconv.Atoi`: an optional `+` or `-`, then one or more decimal digits (leading zeros
   * allowed, no underscores, no spaces), whose value must fit in 64 bits.
   */
  function Atoi(s: string): (r: Option<int>)
    ensures r.Some? ==> IsInt64(r.value)
    ensures r.Some? ==> |s| >= 1
  {
    var signed := |s| >= 1 && (s[0] == '+' || s[0] == '-');
    var digits := if signed then s[1..] else s;
    if |digits| == 0 || !AllDigits(digits) then None
    else
      var v: int := if signed && s[0] == '-' then -(DigitsValue(digits) as int) else DigitsValue(digits);
      if IsInt64(v) then Some(v) else None
  }

  /** The decimal digits of `n`, with no leading zero. */
  function Digits(n: nat): (s: string)
    ensures |s| >= 1 && AllDigits(s)
    ensures |s| > 1 ==> s[0] != '0'
  {
    if n < 10 then ['0' + n as char]
    else Digits(n / 10) + ['0' + (n % 10) as char]
  }

  /** `strconv.Itoa`: a minus sign for a negative number, then the digits of its magnitude. */
  function Itoa(n: int): (s: string)
    ensures |s| >= 1
  {
    if n < 0 then "-" + Digits(-n) else Digits(n)
  }

  /** Reading back the digits of `n` gives `n`. */
  lemma {:induction false} DigitsValueOfDigits(n: nat)
    ensures DigitsValue(Digits(n)) == n
  {
    if n >= 10 {
      var s := Digits(n);
      assert s[..|s| - 1] == Digits(n / 10);
      DigitsValueOfDigits(n / 10);
    }
  }

  /** A run of digits reads as its value, bare, after a plus sign, or negated after a minus sign. */
  lemma {:induction false} AtoiOfDigits(t: string)
    requires |t| >= 1 && AllDigits(t)
    ensures DigitsValue(t) <= MaxInt64 ==> Atoi(t) == Some(DigitsValue(t)) && Atoi("+" + t) == Some(DigitsValue(t))
    ensures DigitsValue(t) <= -MinInt64 ==> Atoi("-" + t) == Some(-(DigitsValue(t) as int))
  {
    assert IsDigit(t[0]);
    assert ("+" + t)[0] == '+' && ("+" + t)[1..] == t;
    assert ("-" + t)[0] == '-' && ("-" + t)[1..] == t;
  }

  /**
   * `Atoi` accepts exactly an optional `+` or `-` followed by one or more digits whose value, negated
   * after `-`, fits in 64 bits; and the value it gives is that one.
   */
  lemma {:induction false} AtoiAccepts(s: string, v: int)
    ensures Atoi(s) == Some(v) <==>
      IsInt64(v) &&
      exists t | |t| >= 1 && AllDigits(t) ::
        ((s == t || s == "+" + t) && v == DigitsValue(t)) || (s == "-" + t && v == -(DigitsValue(t) as int))
  {
    if Atoi(s) == Some(v) {
      var signed := |s| >= 1 && (s[0] == '+' || s[0] == '-');
      var t := if signed then s[1..] else s;
      if signed {
        assert s == [s[0]] + t;
        if s[0] == '+' { assert s == "+" + t; } else { assert s == "-" + t; }
      }
      assert |t| >= 1 && AllDigits(t);
    }
    if IsInt64(v) && exists t | |t| >= 1 && AllDigits(t) ::
        ((s == t || s == "+" + t) && v == DigitsValue(t)) || (s == "-" + t && v == -(DigitsValue(t) as int)) {
      var t :| |t| >= 1 && AllDigits(t) &&
        (((s == t || s == "+" + t) && v == DigitsValue(t)) || (s == "-" + t && v == -(DigitsValue(t) as int)));
      AtoiOfDigits(t);
    }
  }

  /** `Atoi` reads back every 64-bit integer `Itoa` writes. */
  lemma {:induction false} AtoiOfItoa(n: int)
    requires IsInt64(n)
    ensures Atoi(Itoa(n)) == Some(n)
  {
    if n < 0 {
      DigitsValueOfDigits(-n);
      AtoiOfDigits(Digits(-n));
    } else {
      DigitsValueOfDigits(n);
      AtoiOfDigits(Digits(n));
    }
  }

  /** Leading zeros do not change the value read. */
  lemma {:induction false} AtoiIgnoresLeadingZeros(zeros: nat, n: nat)
    requires n <= MaxInt64
    ensures Atoi(seq(zeros, _ => '0') + Digits(n)) == Some(n)
  {
    var d := Digits(n);
    var t := seq(zeros, _ => '0') + d;
    DigitsValueOfDigits(n);
    ZerosValue(zeros, d);
    assert |t| >= 1 && AllDigits(t) && DigitsValue(t) == n;
    AtoiOfDigits(t);
  }

  /** Leading zeros after a plus sign do not change the value read either. */
  lemma {:induction false} AtoiIgnoresSignAndLeadingZeros(zeros: nat, n: nat)
    requires n <= MaxInt64
    ensures Atoi("+" + seq(zeros, _ => '0') + Digits(n)) == Some(n)
  {
    var z: string := seq(zeros, _ => '0');
    var d := Digits(n);
    AtoiIgnoresLeadingZeros(zeros, n);
    AtoiOfDigits(z + d);
    assert "+" + z + d == "+" + (z + d);
  }

  /** Zeros in front of a run of digits add nothing to its value. */
  lemma {:induction false} ZerosValue(zeros: nat, s: string)
    requires AllDigits(s)
    ensures AllDigits(seq(zeros, _ => '0') + s)
    ensures DigitsValue(seq(zeros, _ => '0') + s) == DigitsValue(s)
    decreases |s|
  {
    var z: string := seq(zeros, _ => '0');
    var t := z + s;
    assert AllDigits(t) by {
      forall i | 0 <= i < |t| ensures IsDigit(t[i]) {
        if i < zeros { assert t[i] == z[i]; } else { assert t[i] == s[i - zeros]; }
      }
    }
    if s == [] {
      assert t == z;
      AllZerosValue(zeros);
    } else {
      assert t[..|t| - 1] == z + s[..|s| - 1];
      ZerosValue(zeros, s[..|s| - 1]);
    }
  }

  /** A run of zeros is worth nothing. */
  lemma {:induction false} AllZerosValue(zeros: nat)
    ensures AllDigits(seq(zeros, _ => '0'))
    ensures DigitsValue(seq(zeros, _ => '0')) == 0
  {
    var z: string := seq(zeros, _ => '0');
    assert AllDigits(z);
    if zeros > 0 {
      assert z[..zeros - 1] == seq(zeros - 1, _ => '0');
      AllZerosValue(zeros - 1);
    }
  }
}
