/** Decimal and hexadecimal rendering as the JVM's `toString()` and
    `"%04X".format(...)` produce it, with the parsers that undo them, and the
    Kotlin string helpers `endsWith`, `removeSuffix`, `contains` and `substringAfter`. */
module Text {

  predicate IsDigit(c: char) { '0' <= c <= '9' }

  predicate AllDigits(s: string) { forall i :: 0 <= i < |s| ==> IsDigit(s[i]) }

  function DigitChar(d: nat): (c: char)
    requires d < 10
    ensures IsDigit(c) && c as int - '0' as int == d
  {
    (d + '0' as int) as char
  }

  /** Decimal digits of `n`, most significant first, without leading zeros. */
  function NatToString(n: nat): (s: string)
    ensures |s| > 0 && AllDigits(s)
    ensures s[0] == '0' ==> n == 0
  {
    if n < 10 then [DigitChar(n)] else NatToString(n / 10) + [DigitChar(n % 10)]
  }

  /** `Int.toString()` / `Long.toString()`: a minus sign for negative values. */
  function IntToString(i: int): (s: string)
    ensures |s| > 0
    ensures s[0] == '-' <==> i < 0
    ensures forall k :: 0 <= k < |s| ==> IsDigit(s[k]) || (k == 0 && s[k] == '-')
  {
    if i < 0 then "-" + NatToString(-i) else NatToString(i)
  }

  /** The value of a string of decimal digits. */
  function DigitsValue(s: string): nat
    requires AllDigits(s)
  {
    if s == [] then 0 else DigitsValue(s[..|s| - 1]) * 10 + (s[|s| - 1] as int - '0' as int)
  }

  /** Inverse of IntToString. */
  function ParseInt(s: string): int
    requires |s| > 0
    requires forall k :: 0 <= k < |s| ==> IsDigit(s[k]) || (k == 0 && s[k] == '-')
  {
    if s[0] == '-' then 0 - DigitsValue(s[1..]) as int else DigitsValue(s)
  }

  lemma {:induction false} NatToStringRoundTrip(n: nat)
    ensures DigitsValue(NatToString(n)) == n
  {
    if n >= 10 {
      var s := NatToString(n);
      assert s[..|s| - 1] == NatToString(n / 10);
      NatToStringRoundTrip(n / 10);
    }
  }

  lemma {:induction false} IntToStringRoundTrip(i: int)
    ensures ParseInt(IntToString(i)) == i
  {
    if i < 0 {
      assert IntToString(i)[1..] == NatToString(-i);
      NatToStringRoundTrip(-i);
    } else {
      NatToStringRoundTrip(i);
    }
  }

  /** Different numbers render differently: what makes rendered names unique. */
  lemma {:induction false} IntToStringInjective(a: int, b: int)
    ensures IntToString(a) == IntToString(b) ==> a == b
  {
    IntToStringRoundTrip(a);
    IntToStringRoundTrip(b);
  }

  lemma {:induction false} NatToStringInjective(a: nat, b: nat)
    ensures NatToString(a) == NatToString(b) ==> a == b
  {
    NatToStringRoundTrip(a);
    NatToStringRoundTrip(b);
  }

  predicate IsUpperHexDigit(c: char) { IsDigit(c) || 'A' <= c <= 'F' }

  function HexDigitChar(d: nat): (c: char)
    requires d < 16
    ensures IsUpperHexDigit(c)
  {
    if d < 10 then DigitChar(d) else (d - 10 + 'A' as int) as char
  }

  function HexDigitValue(c: char): nat
    requires IsUpperHexDigit(c)
  {
    if IsDigit(c) then c as int - '0' as int else c as int - 'A' as int + 10
  }

  /** `"%04X".format(v)` for a UTF-16 code unit: exactly four upper-case hex digits. */
  function Hex4(v: nat): (s: string)
    requires v < 0x1_0000
    ensures |s| == 4 && forall k :: 0 <= k < 4 ==> IsUpperHexDigit(s[k])
  {
    var high, low := v / 0x100, v % 0x100;
    [HexDigitChar(high / 16), HexDigitChar(high % 16), HexDigitChar(low / 16), HexDigitChar(low % 16)]
  }

  function ParseHex4(s: string): nat
    requires |s| == 4 && forall k :: 0 <= k < 4 ==> IsUpperHexDigit(s[k])
  {
    HexDigitValue(s[0]) * 0x1000 + HexDigitValue(s[1]) * 0x100 + HexDigitValue(s[2]) * 0x10 + HexDigitValue(s[3])
  }

  lemma {:induction false} HexDigitRoundTrip(d: nat)
    requires d < 16
    ensures HexDigitValue(HexDigitChar(d)) == d
  {
  }

  lemma {:induction false} Hex4RoundTrip(v: nat)
    requires v < 0x1_0000
    ensures ParseHex4(Hex4(v)) == v
  {
    var high, low := v / 0x100, v % 0x100;
    HexDigitRoundTrip(high / 16);
    HexDigitRoundTrip(high % 16);
    HexDigitRoundTrip(low / 16);
    HexDigitRoundTrip(low % 16);
    assert high == high / 16 * 16 + high % 16;
    assert low == low / 16 * 16 + low % 16;
    assert v == high * 0x100 + low;
  }

  // Kotlin string helpers used by the naming code.

  predicate EndsWith(s: string, suffix: string)
  {
    |suffix| <= |s| && s[|s| - |suffix|..] == suffix
  }

  /** `s.removeSuffix(suffix)`: drops `suffix` when `s` ends with it, otherwise `s` itself. */
  function RemoveSuffix(s: string, suffix: string): (r: string)
    ensures EndsWith(s, suffix) ==> r + suffix == s
    ensures !EndsWith(s, suffix) ==> r == s
  {
    if EndsWith(s, suffix) then s[..|s| - |suffix|] else s
  }

  /** `t in s` for strings: `t` occurs somewhere in `s` as a contiguous piece. */
  predicate Contains(s: string, t: string)
    decreases |s|
  {
    t <= s || (|s| > 0 && Contains(s[1..], t))
  }

  /** Position of the first `c` in `s`, or `|s|` when there is none. */
  function FirstIndexOf(s: string, c: char): (r: nat)
    ensures r <= |s| && (r < |s| ==> s[r] == c)
    ensures forall j :: 0 <= j < r ==> s[j] != c
  {
    if s == [] then 0 else if s[0] == c then 0 else 1 + FirstIndexOf(s[1..], c)
  }

  /** The first `c` is found whenever there is one. */
  lemma {:induction false} FirstIndexOfFound(s: string, c: char)
    requires c in s
    ensures FirstIndexOf(s, c) < |s|
  {
    var j :| 0 <= j < |s| && s[j] == c;
  }

  /** The first `c` of `x + [c] + y`, when `x` holds none, is the one after `x`. */
  lemma {:induction false} FirstIndexAfter(x: string, c: char, y: string)
    requires forall k :: 0 <= k < |x| ==> x[k] != c
    ensures FirstIndexOf(x + [c] + y, c) == |x|
  {
    if x != [] {
      assert (x + [c] + y)[1..] == x[1..] + [c] + y;
      FirstIndexAfter(x[1..], c, y);
    }
  }

  /** `s.substringAfter(c)`: what follows the first `c`, or all of `s` when there is none. */
  function SubstringAfter(s: string, c: char): (r: string)
    ensures c !in s ==> r == s
    ensures c in s ==> |r| < |s| && r == s[|s| - |r|..] && s[|s| - |r| - 1] == c && c !in s[..|s| - |r| - 1]
  {
    var i := FirstIndexOf(s, c);
    if i == |s| then
      assert c !in s;
      s
    else
      s[i + 1..]
  }

  /** Text up to the first `c` is dropped with it: `(p + c + rest).substringAfter(c) == rest`. */
  lemma {:induction false} SubstringAfterPrefix(p: string, c: char, rest: string)
    requires c !in p
    ensures SubstringAfter(p + [c] + rest, c) == rest
  {
    FirstIndexAfter(p, c, rest);
    assert (p + [c] + rest)[|p| + 1..] == rest;
  }

  /** Concatenation is associative; stated once so callers need not re-derive it. */
  lemma {:induction false} AppendAssociates<T>(a: seq<T>, b: seq<T>, c: seq<T>)
    ensures (a + b) + c == a + (b + c)
  {
  }
}
