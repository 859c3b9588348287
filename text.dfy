/** Decimal rendering and parsing of non-negative integers, and the string helpers the source calls. */
module Text {

  predicate IsDigit(c: char) {
    '0' <= c <= '9'
  }

  predicate AllDigits(s: string) {
    forall i | 0 <= i < |s| :: IsDigit(s[i])
  }

  function DigitChar(k: int): (c: char)
    requires 0 <= k < 10
    ensures IsDigit(c)
  {
    ('0' as int + k) as char
  }

  function DigitValue(c: char): (k: int)
    requires IsDigit(c)
    ensures 0 <= k < 10 && DigitChar(k) == c
  {
    c as int - '0' as int
  }

  function Pow10(k: nat): (p: nat)
    ensures p >= 1
  {
    if k == 0 then 1 else 10 * Pow10(k - 1)
  }

  /** A concatenation is all digits exactly when both parts are. */
  lemma AllDigitsAppend(a: string, b: string)
    ensures AllDigits(a + b) <==> AllDigits(a) && AllDigits(b)
  {
    var c := a + b;
    if AllDigits(a) && AllDigits(b) {
      forall i | 0 <= i < |c|
        ensures IsDigit(c[i])
      {
        if i < |a| {
          assert c[i] == a[i];
        } else {
          assert c[i] == b[i - |a|];
        }
      }
    }
    if AllDigits(c) {
      forall i | 0 <= i < |a|
        ensures IsDigit(a[i])
      {
        assert a[i] == c[i];
      }
      forall i | 0 <= i < |b|
        ensures IsDigit(b[i])
      {
        assert b[i] == c[|a| + i];
      }
    }
  }

  /** `str(n)` for an int n >= 0: decimal digits, no leading zero. */
  function NatToString(n: nat): (s: string)
    ensures 1 <= |s|
    ensures |s| > 1 ==> s[0] != '0'
    decreases n
  {
    if n < 10 then [DigitChar(n)] else NatToString(n / 10) + [DigitChar(n % 10)]
  }

  /** The rendering consists of decimal digits only. */
  lemma {:induction false} NatToStringDigits(n: nat)
    ensures AllDigits(NatToString(n))
    decreases n
  {
    if n >= 10 {
      NatToStringDigits(n / 10);
      AllDigitsAppend(NatToString(n / 10), [DigitChar(n % 10)]);
    }
  }

  /** The value of a string of decimal digits (`int(s)` for such a string; 0 for ""). */
  function ParseNat(s: string): nat
    requires AllDigits(s)
  {
    if s == [] then 0 else ParseNat(s[..|s| - 1]) * 10 + DigitValue(s[|s| - 1])
  }

  /** The prefix of a digit string is a digit string. */
  lemma DigitsPrefix(s: string)
    requires AllDigits(s) && s != []
    ensures AllDigits(s[..|s| - 1])
  {
    assert s == s[..|s| - 1] + [s[|s| - 1]];
    AllDigitsAppend(s[..|s| - 1], [s[|s| - 1]]);
  }

  /** Reading back a rendering gives the number. */
  lemma {:induction false} ParseNatToString(n: nat)
    ensures AllDigits(NatToString(n)) && ParseNat(NatToString(n)) == n
    decreases n
  {
    NatToStringDigits(n);
    if n >= 10 {
      var s := NatToString(n);
      assert s[..|s| - 1] == NatToString(n / 10);
      ParseNatToString(n / 10);
    }
  }

  /** Distinct numbers have distinct decimal renderings. */
  lemma NatToStringInjective(a: nat, b: nat)
    ensures NatToString(a) == NatToString(b) ==> a == b
  {
    ParseNatToString(a);
    ParseNatToString(b);
  }

  /** A rendering has at most k digits exactly when the number is below 10^k. */
  lemma {:induction false} NatToStringLength(n: nat, k: nat)
    requires 1 <= k
    ensures |NatToString(n)| <= k <==> n < Pow10(k)
    decreases n
  {
    if n >= 10 {
      if k == 1 {
        assert |NatToString(n)| >= 2;
      } else {
        NatToStringLength(n / 10, k - 1);
      }
    }
  }

  /** A string of k digits reads as a number below 10^k. */
  lemma {:induction false} ParseNatBelowPow10(t: string)
    requires AllDigits(t)
    ensures ParseNat(t) < Pow10(|t|)
    decreases |t|
  {
    if t != [] {
      DigitsPrefix(t);
      ParseNatBelowPow10(t[..|t| - 1]);
    }
  }

  /** Two digit strings of one length with the same value are equal. */
  lemma {:induction false} ParseNatInjective(a: string, b: string)
    requires AllDigits(a) && AllDigits(b) && |a| == |b|
    requires ParseNat(a) == ParseNat(b)
    ensures a == b
    decreases |a|
  {
    if a != [] {
      var n := |a| - 1;
      DigitsPrefix(a);
      DigitsPrefix(b);
      var pa, pb := ParseNat(a[..n]), ParseNat(b[..n]);
      var da, db := DigitValue(a[n]), DigitValue(b[n]);
      assert pa * 10 + da == pb * 10 + db;
      assert da == db && pa == pb by {
        assert (pa * 10 + da) % 10 == da && (pb * 10 + db) % 10 == db;
        assert (pa * 10 + da) / 10 == pa && (pb * 10 + db) / 10 == pb;
      }
      ParseNatInjective(a[..n], b[..n]);
      assert a == a[..n] + [a[n]];
      assert b == b[..n] + [b[n]];
    }
  }

  function Zeros(k: nat): (s: string)
    ensures |s| == k
  {
    if k == 0 then "" else Zeros(k - 1) + "0"
  }

  /** Appending a digit multiplies the value by ten and adds the digit. */
  lemma ParseNatSnoc(s: string, c: char)
    requires AllDigits(s) && IsDigit(c)
    ensures AllDigits(s + [c]) && ParseNat(s + [c]) == ParseNat(s) * 10 + DigitValue(c)
  {
    AllDigitsAppend(s, [c]);
    var t := s + [c];
    assert t[..|t| - 1] == s && t[|t| - 1] == c;
  }

  /** k zero characters read as 0. */
  lemma {:induction false} ZerosParse(k: nat)
    ensures AllDigits(Zeros(k)) && ParseNat(Zeros(k)) == 0
  {
    if k > 0 {
      ZerosParse(k - 1);
      ParseNatSnoc(Zeros(k - 1), '0');
      assert Zeros(k) == Zeros(k - 1) + ['0'];
    }
  }

  /** A zero-padded decimal field of at least w digits, as strftime's `%Y`, `%m`, `%d`, `%H`, `%M`, `%S`, `%I`. */
  function Pad(n: nat, w: nat): string {
    var digits := NatToString(n);
    (if |digits| < w then Zeros(w - |digits|) else "") + digits
  }

  /** Leading zeros do not change the value of a digit string. */
  lemma {:induction false} ParseNatLeadingZeros(k: nat, s: string)
    requires AllDigits(s)
    ensures AllDigits(Zeros(k) + s) && ParseNat(Zeros(k) + s) == ParseNat(s)
    decreases |s|
  {
    if s == [] {
      ZerosParse(k);
      assert Zeros(k) + s == Zeros(k);
    } else {
      var init, c := s[..|s| - 1], s[|s| - 1];
      DigitsPrefix(s);
      ParseNatLeadingZeros(k, init);
      ParseNatSnoc(Zeros(k) + init, c);
      ParseNatSnoc(init, c);
      assert s == init + [c];
      assert Zeros(k) + s == (Zeros(k) + init) + [c];
    }
  }

  /** A value below 10^w is padded to exactly w characters. */
  lemma PadWidth(n: nat, w: nat)
    requires 1 <= w && n < Pow10(w)
    ensures |Pad(n, w)| == w
  {
    NatToStringLength(n, w);
  }

  /** A value below 10^w is padded to exactly w digits, and reading them back gives the value. */
  lemma PadFixedWidth(n: nat, w: nat)
    requires 1 <= w && n < Pow10(w)
    ensures |Pad(n, w)| == w && AllDigits(Pad(n, w)) && ParseNat(Pad(n, w)) == n
  {
    PadWidth(n, w);
    ParseNatToString(n);
    var digits := NatToString(n);
    var k := if |digits| < w then w - |digits| else 0;
    ParseNatLeadingZeros(k, digits);
    assert Pad(n, w) == Zeros(k) + digits;
  }

  /** Padding the value of a digit string to its own width gives the string back. */
  lemma PadParseNat(t: string)
    requires 1 <= |t| && AllDigits(t)
    ensures Pad(ParseNat(t), |t|) == t
  {
    ParseNatBelowPow10(t);
    PadFixedWidth(ParseNat(t), |t|);
    ParseNatInjective(Pad(ParseNat(t), |t|), t);
  }

  /** ASCII lower-casing, as `str.lower()` acts on the characters that can lower to "l". */
  function Lower(s: string): (r: string)
    ensures |r| == |s|
  {
    if s == [] then ""
    else [if 'A' <= s[0] <= 'Z' then (s[0] as int + 32) as char else s[0]] + Lower(s[1..])
  }

  /** `s.lstrip("0")`. */
  function StripLeadingZeros(s: string): string {
    if s != [] && s[0] == '0' then StripLeadingZeros(s[1..]) else s
  }

  /**
   * `lstrip("0")` removes a prefix made only of '0's and leaves a suffix of
   * the text that does not start with '0'.
   */
  lemma {:induction false} StripLeadingZerosSuffix(s: string)
    ensures var r := StripLeadingZeros(s);
      && |r| <= |s| && r == s[|s| - |r|..] && (r != [] ==> r[0] != '0')
      && forall j | 0 <= j < |s| - |r| :: s[j] == '0'
    decreases |s|
  {
    if s != [] && s[0] == '0' {
      StripLeadingZerosSuffix(s[1..]);
      var r := StripLeadingZeros(s[1..]);
      assert s[1..][|s| - 1 - |r|..] == s[|s| - |r|..];
      forall j | 1 <= j < |s| - |r|
        ensures s[j] == '0'
      {
        assert s[1..][j - 1] == s[j];
      }
    }
  }
}
