/** Character classes and small string functions shared by the duration parser.
    Strings are sequences of Unicode scalar values; every class below is a set of
    Basic Multilingual Plane characters, so reading the UTF-16 code units of a
    JavaScript string instead would classify the same characters. */
module Lexical {

  predicate IsDigit(c: char) { '0' <= c <= '9' }

  /** What the pattern class `[a-z]` matches under the `i` flag: ASCII letters of either case. */
  predicate IsAsciiLetter(c: char) { 'a' <= c <= 'z' || 'A' <= c <= 'Z' }

  /** The pattern class `[0-9.,]` of the amount group. */
  predicate IsNumeralChar(c: char) { IsDigit(c) || c == '.' || c == ',' }

  /** ECMAScript StrWhiteSpaceChar: TAB, VT, FF, ZWNBSP, every space separator (Zs)
      and every line terminator (LF, CR, LS, PS). */
  predicate IsStrWhiteSpace(c: char) {
    || c == '\t' || c == '\U{000B}' || c == '\U{000C}' || c == '\U{FEFF}'
    || c == ' ' || c == '\U{00A0}' || c == '\U{1680}' || ('\U{2000}' <= c <= '\U{200A}')
    || c == '\U{202F}' || c == '\U{205F}' || c == '\U{3000}'
    || c == '\n' || c == '\r' || c == '\U{2028}' || c == '\U{2029}'
  }

  predicate AllDigits(s: string) { forall i | 0 <= i < |s| :: IsDigit(s[i]) }

  predicate AllLetters(s: string) { forall i | 0 <= i < |s| :: IsAsciiLetter(s[i]) }

  /** The value of `c` as a digit of a base up to 16 (`0-9`, `a-f`, `A-F`), or -1. */
  function DigitValue(c: char): (v: int)
    ensures -1 <= v < 16
    ensures IsDigit(c) <==> 0 <= v < 10
    ensures IsAsciiLetter(c) ==> v == -1 || v >= 10
  {
    if '0' <= c <= '9' then c as int - '0' as int
    else if 'a' <= c <= 'f' then c as int - 'a' as int + 10
    else if 'A' <= c <= 'F' then c as int - 'A' as int + 10
    else -1
  }

  predicate AllRadixDigits(s: string, base: nat) {
    forall i | 0 <= i < |s| :: 0 <= DigitValue(s[i]) < base
  }

  /** Positional value of `s`, most significant digit first. */
  function RadixValue(s: string, base: nat): nat
    requires AllRadixDigits(s, base)
  {
    if |s| == 0 then 0
    else
      var init := s[..|s| - 1];
      assert AllRadixDigits(init, base) by {
        assert forall i | 0 <= i < |init| :: init[i] == s[i];
      }
      RadixValue(init, base) * base + DigitValue(s[|s| - 1])
  }

  function DecimalValue(s: string): nat
    requires AllDigits(s)
  {
    RadixValue(s, 10)
  }

  /** The decimal rendering of `n`, as `String(n)` writes a non-negative integer. */
  function NatToString(n: nat): (s: string)
    ensures |s| > 0 && AllDigits(s)
  {
    var last := ('0' as int + n % 10) as char;
    if n < 10 then [last] else NatToString(n / 10) + [last]
  }

  /** Reading back a rendered natural number gives the number. */
  lemma {:induction false} NatToStringRoundTrip(n: nat)
    ensures DecimalValue(NatToString(n)) == n
  {
    var s := NatToString(n);
    assert DigitValue(s[|s| - 1]) == n % 10;
    assert DecimalValue(s) == RadixValue(s[..|s| - 1], 10) * 10 + n % 10;
    if n >= 10 {
      NatToStringRoundTrip(n / 10);
      assert s[..|s| - 1] == NatToString(n / 10);
    } else {
      assert s[..|s| - 1] == [];
      assert RadixValue(s[..|s| - 1], 10) == 0;
    }
  }

  function LowerChar(c: char): char {
    if 'A' <= c <= 'Z' then (c as int + 32) as char else c
  }

  /** `toLowerCase` restricted to ASCII; on a run of ASCII letters the two agree. */
  function LowerAscii(s: string): (r: string)
    ensures |r| == |s|
  {
    seq(|s|, i requires 0 <= i < |s| => LowerChar(s[i]))
  }

  /** Lower-casing turns each upper-case letter into its lower-case partner, changes
      nothing else, and keeps letters letters. */
  lemma LowerAsciiLowers(s: string)
    ensures forall i | 0 <= i < |s| :: !('A' <= LowerAscii(s)[i] <= 'Z')
    ensures forall i | 0 <= i < |s| :: 'A' <= s[i] <= 'Z' ==> LowerAscii(s)[i] as int == s[i] as int + 32
    ensures forall i | 0 <= i < |s| :: !('A' <= s[i] <= 'Z') ==> LowerAscii(s)[i] == s[i]
    ensures forall i | 0 <= i < |s| :: IsAsciiLetter(s[i]) <==> IsAsciiLetter(LowerAscii(s)[i])
  {
  }

  /** Two characters that are equal, or are the upper- and lower-case forms of one ASCII
      letter. */
  predicate SameIgnoringCase(a: char, b: char) {
    || a == b
    || (IsAsciiLetter(a) && IsAsciiLetter(b) && (a as int - b as int == 32 || b as int - a as int == 32))
  }

  /** Strings that differ only in the case of ASCII letters lower-case alike. */
  lemma LowerAsciiFolds(u: string, v: string)
    requires |u| == |v| && forall i | 0 <= i < |u| :: SameIgnoringCase(u[i], v[i])
    ensures LowerAscii(u) == LowerAscii(v)
  {
  }

  /** Drops leading white space. */
  function TrimStart(s: string): (r: string)
    ensures |r| <= |s| && r == s[|s| - |r|..]
    ensures forall p | 0 <= p < |s| - |r| :: IsStrWhiteSpace(s[p])
    ensures |r| > 0 ==> !IsStrWhiteSpace(r[0])
  {
    if |s| > 0 && IsStrWhiteSpace(s[0]) then TrimStart(s[1..]) else s
  }

  /** Drops trailing white space. */
  function TrimEnd(s: string): (r: string)
    ensures |r| <= |s| && r == s[..|r|]
    ensures forall p | |r| <= p < |s| :: IsStrWhiteSpace(s[p])
    ensures |r| > 0 ==> !IsStrWhiteSpace(r[|r| - 1])
  {
    if |s| > 0 && IsStrWhiteSpace(s[|s| - 1]) then TrimEnd(s[..|s| - 1]) else s
  }

  function Trim(s: string): string {
    TrimEnd(TrimStart(s))
  }

  /** A string that neither starts nor ends with white space is its own trimmed form. */
  lemma TrimUnchanged(s: string)
    requires |s| > 0 && !IsStrWhiteSpace(s[0]) && !IsStrWhiteSpace(s[|s| - 1])
    ensures Trim(s) == s
  {
  }

  /** A string that does not start with white space loses only a tail when trimmed. */
  lemma TrimFromStart(s: string)
    requires |s| > 0 && !IsStrWhiteSpace(s[0])
    ensures Trim(s) == TrimEnd(s) == s[..|Trim(s)|]
  {
  }

  /** Trimming `a + b`, where neither starts with white space, keeps all of `a` and
      the first character of `b`. */
  lemma TrimKeepsPrefix(a: string, b: string)
    requires |a| > 0 && !IsStrWhiteSpace(a[0]) && |b| > 0 && !IsStrWhiteSpace(b[0])
    ensures |a| < |Trim(a + b)| && Trim(a + b) == a + Trim(a + b)[|a|..]
    ensures Trim(a + b)[|a|] == b[0]
  {
    var t := a + b;
    var x := Trim(t);
    assert |a| < |x| && x == t[..|x|] by {
      assert t[0] == a[0] && t[|a|] == b[0];
      TrimFromStart(t);
      TrimEndKeeps(t, |a|);
    }
    assert x[..|a|] == a;
    assert x == x[..|a|] + x[|a|..];
  }

  /** Trimming a string of white space alone leaves nothing. */
  lemma {:induction false} TrimBlank(s: string)
    requires forall p | 0 <= p < |s| :: IsStrWhiteSpace(s[p])
    ensures TrimStart(s) == [] && Trim(s) == []
  {
    if |s| > 0 {
      TrimBlank(s[1..]);
    }
  }

  /** Trimming a string that starts with no white space keeps its first character and
      every later character that is no white space, in place. */
  lemma TrimKeepsFirstAnd(s: string, q: nat)
    requires |s| > 0 && !IsStrWhiteSpace(s[0]) && q < |s| && !IsStrWhiteSpace(s[q])
    ensures q < |Trim(s)| && Trim(s)[0] == s[0] && Trim(s)[q] == s[q]
  {
    TrimFromStart(s);
    TrimEndKeeps(s, q);
  }

  /** Trimming keeps every character that is not white space, at its place in the rest. */
  lemma TrimKeeps(s: string, p: nat)
    requires p < |s| && !IsStrWhiteSpace(s[p])
    ensures var lead := |s| - |TrimStart(s)|;
      lead <= p < lead + |Trim(s)| && Trim(s)[p - lead] == s[p]
  {
    var front := TrimStart(s);
    var lead := |s| - |front|;
    assert front[p - lead] == s[p];
    TrimEndKeeps(front, p - lead);
  }

  lemma TrimEndKeeps(s: string, q: nat)
    requires q < |s| && !IsStrWhiteSpace(s[q])
    ensures q < |TrimEnd(s)| && TrimEnd(s)[q] == s[q]
  {
    var r := TrimEnd(s);
    assert r == s[..|r|];
  }

  datatype CharClass = Digits | Numerals | Letters

  predicate InClass(c: char, k: CharClass) {
    match k
    case Digits => IsDigit(c)
    case Numerals => IsNumeralChar(c)
    case Letters => IsAsciiLetter(c)
  }

  /** End of the longest run of class `k` starting at `i`: what a greedy `k+` reaches. */
  function RunEnd(s: string, i: nat, k: CharClass): (e: nat)
    requires i <= |s|
    ensures i <= e <= |s|
    ensures forall p | i <= p < e :: InClass(s[p], k)
    ensures e == |s| || !InClass(s[e], k)
    decreases |s| - i
  {
    if i < |s| && InClass(s[i], k) then RunEnd(s, i + 1, k) else i
  }

  /** Any end of a run of class `k` that the next character stops is the greedy end. */
  lemma RunEndIs(s: string, i: nat, e: nat, k: CharClass)
    requires i <= e <= |s|
    requires forall p | i <= p < e :: InClass(s[p], k)
    requires e == |s| || !InClass(s[e], k)
    ensures RunEnd(s, i, k) == e
  {
    var r := RunEnd(s, i, k);
    assert r < |s| ==> !InClass(s[r], k);
  }
}
