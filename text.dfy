/**
 * String helpers shared by the screens: JavaScript's `trim` and the blank-input
 * guard built on it, decimal rendering of a non-negative integer
 * (`Number.prototype.toString`) and `padStart(2, '0')`.
 */
module Text {

  /** The characters `String.prototype.trim` strips: white space and line terminators. */
  predicate IsSpace(c: char)
  {
    c == ' ' || c == '\t' || c == '\n' || c == '\r' || c == '\U{B}' || c == '\U{C}' ||
    c == '\U{A0}' || c == '\U{1680}' || ('\U{2000}' <= c <= '\U{200A}') ||
    c == '\U{2028}' || c == '\U{2029}' || c == '\U{202F}' || c == '\U{205F}' ||
    c == '\U{3000}' || c == '\U{FEFF}'
  }

  /** The characters at which a regular-expression `.` stops. */
  predicate IsLineTerminator(c: char)
  {
    c == '\n' || c == '\r' || c == '\U{2028}' || c == '\U{2029}'
  }

  /** `trimStart`: drops the leading white space. */
  function TrimStart(s: string): (r: string)
    ensures r == [] || !IsSpace(r[0])
  {
    if |s| > 0 && IsSpace(s[0]) then TrimStart(s[1..]) else s
  }

  /** `trimEnd`: drops the trailing white space. */
  function TrimEnd(s: string): (r: string)
    ensures r == [] || !IsSpace(r[|r| - 1])
  {
    if |s| > 0 && IsSpace(s[|s| - 1]) then TrimEnd(s[..|s| - 1]) else s
  }

  /** What `trimStart` drops is a prefix made of white space only. */
  lemma {:induction false} TrimStartShape(s: string)
    ensures exists k :: 0 <= k <= |s| && TrimStart(s) == s[k..] && forall i :: 0 <= i < k ==> IsSpace(s[i])
  {
    if |s| > 0 && IsSpace(s[0]) {
      TrimStartShape(s[1..]);
      var k :| 0 <= k <= |s[1..]| && TrimStart(s[1..]) == s[1..][k..] && forall i :: 0 <= i < k ==> IsSpace(s[1..][i]);
      assert TrimStart(s) == s[k + 1..];
      assert forall i :: 0 <= i < k + 1 ==> IsSpace(s[i]) by {
        assert forall i :: 1 <= i < k + 1 ==> s[i] == s[1..][i - 1];
      }
    } else {
      assert TrimStart(s) == s[0..];
    }
  }

  /** What `trimEnd` drops is a suffix made of white space only. */
  lemma {:induction false} TrimEndShape(s: string)
    ensures exists k :: 0 <= k <= |s| && TrimEnd(s) == s[..k] && forall i :: k <= i < |s| ==> IsSpace(s[i])
  {
    if |s| > 0 && IsSpace(s[|s| - 1]) {
      var init := s[..|s| - 1];
      TrimEndShape(init);
      var k :| 0 <= k <= |init| && TrimEnd(init) == init[..k] && forall i :: k <= i < |init| ==> IsSpace(init[i]);
      assert TrimEnd(s) == s[..k];
      assert forall i :: k <= i < |s| ==> IsSpace(s[i]) by {
        assert forall i :: k <= i < |init| ==> s[i] == init[i];
      }
    } else {
      assert TrimEnd(s) == s[..|s|];
    }
  }

  /** `s.trim()`. */
  function Trim(s: string): (r: string)
    ensures r == [] || (!IsSpace(r[0]) && !IsSpace(r[|r| - 1]))
  {
    var t := TrimStart(s);
    TrimEndShape(t);
    var r := TrimEnd(t);
    assert r != [] ==> r[0] == t[0];
    r
  }

  /** `s[a..b]` is what is left of `s` once only white space is dropped before `a` and from `b` on. */
  predicate SpaceAround(s: string, a: int, b: int)
  {
    0 <= a <= b <= |s| && (forall i :: 0 <= i < a ==> IsSpace(s[i])) && (forall i :: b <= i < |s| ==> IsSpace(s[i]))
  }

  /** `trim()` keeps a slice of the text and drops only white space on either side of it. */
  lemma TrimShape(s: string)
    ensures exists a, b :: SpaceAround(s, a, b) && Trim(s) == s[a..b]
  {
    TrimStartShape(s);
    var a :| 0 <= a <= |s| && TrimStart(s) == s[a..] && forall i :: 0 <= i < a ==> IsSpace(s[i]);
    TrimEndShape(s[a..]);
    var k :| 0 <= k <= |s[a..]| && TrimEnd(s[a..]) == s[a..][..k] && forall i :: k <= i < |s[a..]| ==> IsSpace(s[a..][i]);
    TrimSlice(s, a, k);
  }

  lemma TrimSlice(s: string, a: nat, k: nat)
    requires a <= |s| && TrimStart(s) == s[a..] && forall i :: 0 <= i < a ==> IsSpace(s[i])
    requires k <= |s| - a && TrimEnd(s[a..]) == s[a..][..k] && forall i :: k <= i < |s| - a ==> IsSpace(s[a..][i])
    ensures SpaceAround(s, a, a + k) && Trim(s) == s[a..a + k]
  {
    assert s[a..][..k] == s[a..a + k];
    forall i | a + k <= i < |s| ensures IsSpace(s[i]) {
      assert s[i] == s[a..][i - a];
    }
  }

  /** `s.trim() === ''`, the guard every text input of the app uses. */
  predicate IsBlank(s: string)
  {
    Trim(s) == ""
  }

  lemma TrimStartAllSpace(s: string)
    ensures TrimStart(s) == [] <==> forall i :: 0 <= i < |s| ==> IsSpace(s[i])
  {
    if |s| > 0 && IsSpace(s[0]) {
      TrimStartAllSpace(s[1..]);
      assert forall i :: 1 <= i < |s| ==> s[i] == s[1..][i - 1];
    }
  }

  /** Input is blank exactly when every character of it is white space. */
  lemma {:induction false} BlankIffAllSpace(s: string)
    ensures IsBlank(s) <==> forall i :: 0 <= i < |s| ==> IsSpace(s[i])
  {
    var t := TrimStart(s);
    TrimStartAllSpace(s);
    TrimEndShape(t);
    if t != [] {
      assert !IsSpace(t[0]);
      assert TrimEnd(t) != [];
    }
  }

  /** Text that contains a character other than white space is not blank. */
  lemma NonSpaceNotBlank(s: string, i: int)
    requires 0 <= i < |s| && !IsSpace(s[i])
    ensures !IsBlank(s)
  {
    BlankIffAllSpace(s);
  }

  predicate IsDigit(c: char)
  {
    '0' <= c <= '9'
  }

  predicate AllDigits(s: string)
  {
    forall i :: 0 <= i < |s| ==> IsDigit(s[i])
  }

  function DigitChar(d: nat): (c: char)
    requires d < 10
    ensures IsDigit(c) && c as int - '0' as int == d
  {
    (('0' as int) + d) as char
  }

  function DigitValue(c: char): nat
    requires IsDigit(c)
  {
    c as int - '0' as int
  }

  /** The decimal numeral of `n`, as `n.toString()` writes it. */
  function NatToString(n: nat): (r: string)
    ensures |r| >= 1 && AllDigits(r)
    ensures n < 10 <==> |r| == 1
    decreases n
  {
    if n < 10 then [DigitChar(n)] else NatToString(n / 10) + [DigitChar(n % 10)]
  }

  /** Reads a string of decimal digits back as a number. */
  function ParseNat(s: string): nat
    requires AllDigits(s)
  {
    if s == [] then 0 else ParseNat(s[..|s| - 1]) * 10 + DigitValue(s[|s| - 1])
  }

  lemma {:induction false} ParseNatToString(n: nat)
    ensures ParseNat(NatToString(n)) == n
    decreases n
  {
    if n >= 10 {
      var s := NatToString(n);
      assert s[..|s| - 1] == NatToString(n / 10);
      ParseNatToString(n / 10);
    }
  }

  /** `s.padStart(2, '0')`. */
  function PadStart2(s: string): (r: string)
    ensures |s| >= 2 ==> r == s
    ensures |s| < 2 ==> |r| == 2 && r[2 - |s|..] == s && forall i :: 0 <= i < 2 - |s| ==> r[i] == '0'
  {
    if |s| >= 2 then s else if |s| == 1 then "0" + s else "00"
  }

  /** `n.toString().padStart(2, '0')`. */
  function TwoDigits(n: nat): (r: string)
    ensures AllDigits(r)
  {
    PadStart2(NatToString(n))
  }

  lemma ParseLeadingZero(s: string)
    requires AllDigits(s) && |s| >= 1
    ensures AllDigits("0" + s) && ParseNat("0" + s) == ParseNat(s)
    decreases |s|
  {
    var t := "0" + s;
    if |s| == 1 {
      assert t[..1] == "0";
      assert ParseNat("0") == ParseNat("") * 10 + DigitValue('0');
    } else {
      assert t[..|t| - 1] == "0" + s[..|s| - 1];
      ParseLeadingZero(s[..|s| - 1]);
    }
  }

  /** Below 100 the padded numeral is exactly two digits and reads back as `n`. */
  lemma {:induction false} TwoDigitsRoundTrip(n: nat)
    requires n < 100
    ensures |TwoDigits(n)| == 2 && ParseNat(TwoDigits(n)) == n
  {
    var s := NatToString(n);
    ParseNatToString(n);
    if n < 10 {
      ParseLeadingZero(s);
      assert TwoDigits(n) == "0" + s;
    } else {
      assert |NatToString(n / 10)| == 1;
    }
  }
}
