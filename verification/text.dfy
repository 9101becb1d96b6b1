/** Rendering of the countdown as text, the way the page's TypeScript does it
    (`Number.prototype.toString`, `String.prototype.padStart`, the `%` operator),
    and a small parser for "minutes:seconds" text that the round-trip lemmas of
    both page variants read the rendered clock back with. */
module Text {

  datatype Option<T> = None | Some(value: T)

  predicate IsDigit(c: char) { '0' <= c <= '9' }

  predicate AllDigits(s: string) { forall i :: 0 <= i < |s| ==> IsDigit(s[i]) }

  function DigitValue(c: char): (d: nat)
    requires IsDigit(c)
    ensures d < 10
  {
    c as int - '0' as int
  }

  function DigitChar(d: nat): (c: char)
    requires d < 10
    ensures IsDigit(c) && DigitValue(c) == d
  {
    ('0' as int + d) as char
  }

  /** The value of a string of decimal digits, most significant first. */
  function DigitsValue(s: string): nat
    requires AllDigits(s)
  {
    if s == [] then 0 else DigitsValue(s[..|s| - 1]) * 10 + DigitValue(s[|s| - 1])
  }

  /** `n.toString()` for a non-negative integer: its decimal digits without leading zeros. */
  function NatText(n: nat): (s: string)
    ensures |s| >= 1 && AllDigits(s)
    ensures s[0] == '0' <==> n == 0
    ensures |s| == 1 <==> n < 10
    ensures |s| == 2 <==> 10 <= n < 100
  {
    if n < 10 then [DigitChar(n)] else NatText(n / 10) + [DigitChar(n % 10)]
  }

  lemma {:induction false} NatTextValue(n: nat)
    ensures DigitsValue(NatText(n)) == n
  {
    if n >= 10 {
      var s := NatText(n);
      assert s[..|s| - 1] == NatText(n / 10);
      NatTextValue(n / 10);
    }
  }

  /** `n.toString()` for any integer: a minus sign in front of the digits of a negative one. */
  function IntText(n: int): (s: string)
    ensures |s| >= 1
    ensures n >= 0 ==> s == NatText(n)
    ensures n < 0 <==> s[0] == '-'
  {
    if n < 0 then "-" + NatText(-n) else NatText(n)
  }

  /** `a % 60` in TypeScript, as the pages write it: the remainder takes the sign of
      the dividend (Dafny's own `%` never yields a negative remainder). */
  function Rem60(a: int): (r: int)
    ensures -60 < r < 60 && (a - r) % 60 == 0
    ensures r != 0 ==> (r < 0 <==> a < 0)
  {
    if a >= 0 then a % 60 else -((-a) % 60)
  }

  /** `s.padStart(width, fill)`: `fill` is put in front of `s` until it is `width` long. */
  function PadStart(s: string, width: nat, fill: char): (r: string)
    ensures |r| == if |s| >= width then |s| else width
    ensures |s| >= width ==> r == s
  {
    if |s| >= width then s else seq(width - |s|, _ => fill) + s
  }

  /** The padded text ends with `s` and holds only `fill` in front of it. */
  lemma PadStartShape(s: string, width: nat, fill: char)
    ensures var r := PadStart(s, width, fill);
      r[|r| - |s|..] == s && forall i :: 0 <= i < |r| - |s| ==> r[i] == fill
  {
  }

  lemma {:induction false} LeadingZeroValue(s: string)
    requires AllDigits(s)
    ensures AllDigits("0" + s) && DigitsValue("0" + s) == DigitsValue(s)
  {
    var t := "0" + s;
    if s != [] {
      assert t[..|t| - 1] == "0" + s[..|s| - 1];
      LeadingZeroValue(s[..|s| - 1]);
    }
  }

  /** Leading zeros do not change the value of a digit string. */
  lemma {:induction false} LeadingZerosValue(k: nat, s: string)
    requires AllDigits(s)
    ensures AllDigits(seq(k, _ => '0') + s)
    ensures DigitsValue(seq(k, _ => '0') + s) == DigitsValue(s)
  {
    if k > 0 {
      LeadingZerosValue(k - 1, s);
      var z := seq(k - 1, _ => '0') + s;
      assert seq(k, _ => '0') + s == "0" + z;
      LeadingZeroValue(z);
    } else {
      assert seq(k, _ => '0') + s == s;
    }
  }

  lemma ZeroPadValue(s: string, width: nat)
    requires AllDigits(s)
    ensures AllDigits(PadStart(s, width, '0'))
    ensures DigitsValue(PadStart(s, width, '0')) == DigitsValue(s)
  {
    if |s| < width {
      LeadingZerosValue(width - |s|, s);
    }
  }

  /** A clock reading as parsed back from text: whole minutes and seconds. */
  datatype Clock = Clock(minutes: nat, seconds: nat)
  {
    function Total(): nat { minutes * 60 + seconds }
  }

  /** The position of the first ':' in `s`, if any. */
  function ColonIndex(s: string): (k: Option<nat>)
    ensures k.Some? ==> k.value < |s| && s[k.value] == ':' && forall i :: 0 <= i < k.value ==> s[i] != ':'
    ensures k.None? ==> forall i :: 0 <= i < |s| ==> s[i] != ':'
  {
    if s == [] then None
    else if s[0] == ':' then Some(0)
    else match ColonIndex(s[1..])
      case None => None
      case Some(i) => Some(i + 1)
  }

  /** Reads "minutes:seconds" text back: two non-empty digit strings around the first ':'. */
  function ParseClock(s: string): Option<Clock>
  {
    match ColonIndex(s)
    case None => None
    case Some(k) =>
      var m, sec := s[..k], s[k + 1..];
      if m != [] && sec != [] && AllDigits(m) && AllDigits(sec)
      then Some(Clock(DigitsValue(m), DigitsValue(sec)))
      else None
  }

  lemma ParseClockJoin(m: string, sec: string)
    requires m != [] && sec != [] && AllDigits(m) && AllDigits(sec)
    ensures ParseClock(m + ":" + sec) == Some(Clock(DigitsValue(m), DigitsValue(sec)))
  {
    var s := m + ":" + sec;
    assert s[|m|] == ':';
    assert forall i :: 0 <= i < |m| ==> s[i] == m[i];
    assert ColonIndex(s) == Some(|m|);
    assert s[..|m|] == m;
    assert s[|m| + 1..] == sec;
  }
}
