/**
 * String operations the application relies on, with the semantics of the
 * JavaScript built-ins it calls: `includes`, `indexOf`, `replace` with a
 * string pattern, template-literal number formatting, `parseInt` and
 * `toLowerCase`.
 */
module Text {
  import opened Wrappers

  /** `sub` occurs in `s` starting at index `i`. */
  predicate OccursAt(s: string, sub: string, i: int)
  {
    0 <= i && i + |sub| <= |s| && s[i..i + |sub|] == sub
  }

  /** JavaScript `s.includes(sub)`: plain substring containment. */
  predicate Contains(s: string, sub: string)
  {
    exists i :: 0 <= i <= |s| && OccursAt(s, sub, i)
  }

  /** First index at or after `i` where `sub` occurs, if any. */
  function FindFrom(s: string, sub: string, i: nat): (r: Option<nat>)
    requires i <= |s|
    ensures r.Some? ==> i <= r.value && OccursAt(s, sub, r.value)
    ensures r.Some? ==> forall j :: i <= j < r.value ==> !OccursAt(s, sub, j)
    ensures r.None? ==> forall j :: i <= j <= |s| ==> !OccursAt(s, sub, j)
    decreases |s| - i
  {
    if i + |sub| > |s| then None
    else if OccursAt(s, sub, i) then Some(i)
    else FindFrom(s, sub, i + 1)
  }

  /** JavaScript `s.indexOf(sub)`, with `None` for -1. */
  function IndexOf(s: string, sub: string): (r: Option<nat>)
    ensures r.Some? <==> Contains(s, sub)
    ensures r.Some? ==> OccursAt(s, sub, r.value) && forall j :: 0 <= j < r.value ==> !OccursAt(s, sub, j)
  {
    var r := FindFrom(s, sub, 0);
    if r.Some? then
      assert OccursAt(s, sub, r.value);
      r
    else
      r
  }

  /**
   * JavaScript `s.replace(pattern, replacement)` with a string pattern: only the
   * FIRST occurrence of `pattern` is replaced.
   */
  function ReplaceFirst(s: string, pattern: string, replacement: string): (r: string)
    ensures !Contains(s, pattern) ==> r == s
    ensures Contains(s, pattern) ==>
      exists i :: 0 <= i <= |s| && OccursAt(s, pattern, i)
        && (forall j :: 0 <= j < i ==> !OccursAt(s, pattern, j))
        && r == s[..i] + replacement + s[i + |pattern|..]
  {
    match IndexOf(s, pattern)
    case None => s
    case Some(i) => s[..i] + replacement + s[i + |pattern|..]
  }

  /**
   * When `pre` holds no start of an occurrence, the occurrence right after it is
   * the one replaced, and everything after it is kept as it was.
   */
  lemma {:induction false} ReplaceFirstKeepsTail(pre: string, pattern: string, post: string, replacement: string)
    requires forall j :: 0 <= j < |pre| ==> !OccursAt(pre + pattern + post, pattern, j)
    ensures ReplaceFirst(pre + pattern + post, pattern, replacement) == pre + replacement + post
  {
    var s := pre + pattern + post;
    assert s[|pre|..|pre| + |pattern|] == pattern;
    assert OccursAt(s, pattern, |pre|);
    var i := IndexOf(s, pattern).value;
    assert i == |pre|;
    assert s[..i] == pre;
    assert s[i + |pattern|..] == post;
  }

  /** A text that starts with the pattern has that first occurrence replaced. */
  lemma ReplaceFirstAtStart(pattern: string, post: string, replacement: string)
    ensures ReplaceFirst(pattern + post, pattern, replacement) == replacement + post
  {
    assert pattern + post == "" + pattern + post;
    assert "" + replacement + post == replacement + post;
    ReplaceFirstKeepsTail("", pattern, post, replacement);
  }

  /** A text contains whatever sits between its prefix and its suffix. */
  lemma ContainsMiddle(pre: string, sub: string, post: string)
    ensures Contains(pre + sub + post, sub)
  {
    var s := pre + sub + post;
    assert s[|pre|..|pre| + |sub|] == sub;
    assert OccursAt(s, sub, |pre|);
  }

  /** A text lacking one of the pattern's characters does not contain the pattern. */
  lemma MissingCharNotContained(s: string, sub: string, c: char)
    requires c in sub && c !in s
    ensures !Contains(s, sub)
  {
    var k :| 0 <= k < |sub| && sub[k] == c;
    forall i | 0 <= i <= |s| ensures !OccursAt(s, sub, i) {
      if i + |sub| <= |s| {
        assert s[i + k] in s;
        assert s[i..i + |sub|][k] == s[i + k];
      }
    }
  }

  predicate IsDigit(c: char)
  {
    '0' <= c <= '9'
  }

  function DigitChar(d: nat): (c: char)
    requires d < 10
    ensures IsDigit(c) && c as int - '0' as int == d
  {
    (d + '0' as int) as char
  }

  /** Decimal rendering of a natural number, as `${n}` produces it. */
  function NatToString(n: nat): (r: string)
    ensures |r| >= 1
    ensures forall i :: 0 <= i < |r| ==> IsDigit(r[i])
    ensures n >= 10 ==> r[0] != '0'
  {
    if n < 10 then [DigitChar(n)] else NatToString(n / 10) + [DigitChar(n % 10)]
  }

  /** Decimal rendering of an integer, as `${n}` produces it. */
  function IntToString(n: int): (r: string)
    ensures |r| >= 1
    ensures n < 0 <==> r[0] == '-'
  {
    if n < 0 then "-" + NatToString(-n) else NatToString(n)
  }

  /** The white space and line terminators `parseInt` skips before a number. */
  predicate IsJsSpace(c: char)
  {
    c == ' ' || c == '\t' || c == '\n' || c == '\r' || c == '\U{000B}' || c == '\U{000C}'
    || c == '\U{00A0}' || c == '\U{1680}' || '\U{2000}' <= c <= '\U{200A}' || c == '\U{2028}'
    || c == '\U{2029}' || c == '\U{202F}' || c == '\U{205F}' || c == '\U{3000}' || c == '\U{FEFF}'
  }

  function TrimStart(s: string): (r: string)
    ensures |r| <= |s| && r == s[|s| - |r|..]
    ensures r != [] ==> !IsJsSpace(r[0])
  {
    if s != [] && IsJsSpace(s[0]) then TrimStart(s[1..]) else s
  }

  /** Value of `c` as a digit in base `radix` (10 or 16), if it is one. */
  function DigitValue(c: char, radix: nat): (r: Option<nat>)
    ensures r.Some? ==> r.value < radix
  {
    if '0' <= c <= '9' && (c as int - '0' as int) < radix then Some(c as int - '0' as int)
    else if radix == 16 && 'a' <= c <= 'f' then Some(c as int - 'a' as int + 10)
    else if radix == 16 && 'A' <= c <= 'F' then Some(c as int - 'A' as int + 10)
    else None
  }

  /** Length of the longest prefix of `s` made of base-`radix` digits. */
  function DigitRun(s: string, radix: nat): (n: nat)
    ensures n <= |s|
    ensures forall i :: 0 <= i < n ==> DigitValue(s[i], radix).Some?
    ensures n < |s| ==> DigitValue(s[n], radix).None?
  {
    if s != [] && DigitValue(s[0], radix).Some? then
      var k := DigitRun(s[1..], radix);
      assert forall i :: 1 <= i < k + 1 ==> s[i] == s[1..][i - 1];
      k + 1
    else 0
  }

  /** Numeric value of a run of digits, most significant first. */
  function ValueOf(digits: string, radix: nat): nat
    requires forall i :: 0 <= i < |digits| ==> DigitValue(digits[i], radix).Some?
  {
    if digits == [] then 0
    else ValueOf(digits[..|digits| - 1], radix) * radix + DigitValue(digits[|digits| - 1], radix).value
  }

  /**
   * JavaScript `parseInt(s)` with no radix: skip leading white space, read an
   * optional sign, switch to base 16 after `0x`/`0X`, then read the longest run of
   * digits. `None` stands for `NaN` (no digit read).
   */
  function ParseInt(s: string): (r: Option<int>)
  {
    ParseSigned(TrimStart(s))
  }

  /** An optional sign, then an unsigned number. */
  function ParseSigned(t: string): Option<int>
  {
    var negative := t != [] && t[0] == '-';
    var u := if t != [] && (t[0] == '-' || t[0] == '+') then t[1..] else t;
    match ParseUnsigned(u)
    case None => None
    case Some(v) => var w: int := v; Some(if negative then -w else w)
  }

  /** Base 16 after a `0x`/`0X` prefix, base 10 otherwise. */
  function ParseUnsigned(u: string): Option<nat>
  {
    if |u| >= 2 && u[0] == '0' && (u[1] == 'x' || u[1] == 'X') then ParseDigits(u[2..], 16)
    else ParseDigits(u, 10)
  }

  /** The value of the longest leading run of digits, `None` when there is none. */
  function ParseDigits(body: string, radix: nat): Option<nat>
  {
    var n := DigitRun(body, radix);
    if n == 0 then None else Some(ValueOf(body[..n], radix))
  }

  lemma {:induction false} ValueOfNatToString(n: nat)
    ensures forall i :: 0 <= i < |NatToString(n)| ==> DigitValue(NatToString(n)[i], 10).Some?
    ensures ValueOf(NatToString(n), 10) == n
  {
    var s := NatToString(n);
    assert forall i :: 0 <= i < |s| ==> DigitValue(s[i], 10).Some?;
    if n >= 10 {
      ValueOfNatToString(n / 10);
      assert s[..|s| - 1] == NatToString(n / 10);
    }
  }

  /** Reading back a rendered natural number gives the number: parseInt(`${n}`) == n. */
  lemma ParseIntNatToString(n: nat)
    ensures ParseInt(NatToString(n)) == Some(n)
  {
    ValueOfNatToString(n);
    ParseIntOfDigits(NatToString(n));
  }

  /** A non-empty run of decimal digits is read whole, in base 10. */
  lemma ParseIntOfDigits(s: string)
    requires s != [] && forall i :: 0 <= i < |s| ==> IsDigit(s[i])
    ensures forall i :: 0 <= i < |s| ==> DigitValue(s[i], 10).Some?
    ensures ParseInt(s) == Some(ValueOf(s, 10) as int)
  {
    TrimDigits(s);
    UnsignedOfDigits(s);
    SignedOfDigit(s);
  }

  /** Text starting with a digit has no sign: its value is the unsigned one. */
  lemma SignedOfDigit(s: string)
    requires s != [] && IsDigit(s[0])
    ensures ParseUnsigned(s).Some? ==> ParseSigned(s) == Some(ParseUnsigned(s).value as int)
  {
    assert !(s[0] == '-' || s[0] == '+');
  }

  /** A decimal digit string has no `0x` prefix and is read whole in base 10. */
  lemma UnsignedOfDigits(s: string)
    requires s != [] && forall i :: 0 <= i < |s| ==> IsDigit(s[i])
    ensures forall i :: 0 <= i < |s| ==> DigitValue(s[i], 10).Some?
    ensures ParseUnsigned(s) == Some(ValueOf(s, 10))
  {
    ParseDigitsWhole(s);
    assert |s| >= 2 ==> IsDigit(s[1]);
  }

  /** Every character of a decimal digit string belongs to the run that is read. */
  lemma ParseDigitsWhole(s: string)
    requires s != [] && forall i :: 0 <= i < |s| ==> IsDigit(s[i])
    ensures forall i :: 0 <= i < |s| ==> DigitValue(s[i], 10).Some?
    ensures ParseDigits(s, 10) == Some(ValueOf(s, 10))
  {
    DigitRunOfDigits(s);
    assert s[..|s|] == s;
  }

  /** A text made only of decimal digits is one whole digit run. */
  lemma DigitRunOfDigits(s: string)
    requires forall i :: 0 <= i < |s| ==> IsDigit(s[i])
    ensures forall i :: 0 <= i < |s| ==> DigitValue(s[i], 10).Some?
    ensures DigitRun(s, 10) == |s|
  {
  }

  /** A text starting with a decimal digit has no white space to skip. */
  lemma TrimDigits(s: string)
    requires s != [] && IsDigit(s[0])
    ensures TrimStart(s) == s
    ensures ParseInt(s) == ParseSigned(s)
  {
    assert !IsJsSpace(s[0]);
  }

  /**
   * The capitals `LowerChar` maps to a single lower-case character: ASCII and
   * Latin-1 (but not the multiplication sign), Latin Extended-A (but not the
   * dotted I, whose lower case is two characters), basic Greek and Cyrillic.
   */
  predicate IsCapital(c: char)
  {
    'A' <= c <= 'Z' || ('\U{00C0}' <= c <= '\U{00DE}' && c != '\U{00D7}')
    || ('\U{0391}' <= c <= '\U{03A9}' && c != '\U{03A2}') || '\U{0400}' <= c <= '\U{042F}'
    || (('\U{0100}' <= c <= '\U{012F}' || '\U{0132}' <= c <= '\U{0137}' || '\U{014A}' <= c <= '\U{0177}')
        && c as int % 2 == 0)
    || (('\U{0139}' <= c <= '\U{0148}' || '\U{0179}' <= c <= '\U{017E}') && c as int % 2 == 1)
    || c == '\U{0178}'
  }

  /** JavaScript `toLowerCase` on one character: a capital becomes its small letter, anything else is kept. */
  function LowerChar(c: char): (r: char)
    ensures 'A' <= c <= 'Z' ==> 'a' <= r <= 'z' && r as int == c as int + 32
    ensures IsCapital(c) <==> r != c
    ensures !IsCapital(r)
  {
    if 'A' <= c <= 'Z' || ('\U{00C0}' <= c <= '\U{00DE}' && c != '\U{00D7}')
       || ('\U{0391}' <= c <= '\U{03A9}' && c != '\U{03A2}') || '\U{0410}' <= c <= '\U{042F}'
    then (c as int + 32) as char
    else if '\U{0400}' <= c <= '\U{040F}' then (c as int + 80) as char
    else if c == '\U{0178}' then '\U{00FF}'
    else if IsCapital(c) then (c as int + 1) as char
    else c
  }

  function ToLower(s: string): (r: string)
    ensures |r| == |s|
    ensures forall i :: 0 <= i < |s| ==> r[i] == LowerChar(s[i])
  {
    if s == [] then [] else [LowerChar(s[0])] + ToLower(s[1..])
  }
}
