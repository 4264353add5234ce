/** JavaScript's conversion of a string to a number, as `Number(time)` performs it
    (the StringToNumber grammar of ECMAScript), and `parseFloat` on the amount the
    time pattern captures. Finite results are exact rationals, not doubles. */
module NumberCoercion {
  import opened Lexical

  /** A JavaScript number value; a finite one is kept exact. */
  datatype Num = Finite(value: real) | Infinite(negative: bool) | NaN

  function Pow10(e: nat): (r: nat)
    ensures r >= 1
  {
    if e == 0 then 1 else 10 * Pow10(e - 1)
  }

  /** `x` times ten to the power `e`, for an exponent of either sign. */
  function ScaleByPowerOfTen(x: real, e: int): (r: real)
    ensures x >= 0.0 ==> r >= 0.0
  {
    if e >= 0 then x * Pow10(e) as real else x / Pow10(-e) as real
  }

  /** The index of the first character of `t` in `cs`, or |t| when there is none. */
  function FirstIndexOf(t: string, cs: set<char>): (i: nat)
    ensures i <= |t|
    ensures i < |t| ==> t[i] in cs
    ensures forall p | 0 <= p < i :: t[p] !in cs
  {
    if |t| == 0 then 0 else if t[0] in cs then 0 else 1 + FirstIndexOf(t[1..], cs)
  }

  /** `DecimalDigits . DecimalDigits?`, `. DecimalDigits` or `DecimalDigits`: the
      shape of an unsigned amount, for `Number` and for `parseFloat` alike. */
  predicate IsDecimalNumeral(t: string) {
    var i := FirstIndexOf(t, {'.'});
    && AllDigits(t[..i])
    && if i < |t| then AllDigits(t[i + 1..]) && |t| >= 2 else |t| >= 1
  }

  function NumeralValue(t: string): (v: real)
    requires IsDecimalNumeral(t)
    ensures v >= 0.0
  {
    var i := FirstIndexOf(t, {'.'});
    var whole := DecimalValue(t[..i]) as real;
    if i < |t| then whole + DecimalValue(t[i + 1..]) as real / Pow10(|t| - i - 1) as real
    else whole
  }

  /** A numeral is digits with at most one point. */
  lemma NumeralChars(t: string, p: nat)
    requires p < |t|
    ensures IsDecimalNumeral(t) ==> IsDigit(t[p]) || (t[p] == '.' && p == FirstIndexOf(t, {'.'}))
  {
    var i := FirstIndexOf(t, {'.'});
    if IsDecimalNumeral(t) {
      if p < i {
        assert t[..i][p] == t[p];
      } else if p > i {
        assert t[i + 1..][p - i - 1] == t[p];
      }
    }
  }

  lemma NumeralCharsAll(t: string)
    ensures IsDecimalNumeral(t) ==> forall p | 0 <= p < |t| :: IsDigit(t[p]) || t[p] == '.'
  {
    forall p | 0 <= p < |t| ensures IsDecimalNumeral(t) ==> IsDigit(t[p]) || t[p] == '.' {
      NumeralChars(t, p);
    }
  }

  /** `SignedInteger`: the digits of an exponent, with an optional sign. */
  predicate IsSignedInteger(t: string) {
    |t| >= 1 && if t[0] == '+' || t[0] == '-' then |t| >= 2 && AllDigits(t[1..]) else AllDigits(t)
  }

  function SignedIntegerValue(t: string): int
    requires IsSignedInteger(t)
  {
    if t[0] == '-' then -(DecimalValue(t[1..]) as int)
    else if t[0] == '+' then DecimalValue(t[1..])
    else DecimalValue(t)
  }

  lemma SignedIntegerEndsInDigit(t: string)
    requires |t| > 0
    ensures IsSignedInteger(t) ==> IsDigit(t[|t| - 1])
  {
    if |t| >= 2 && (t[0] == '+' || t[0] == '-') {
      assert t[1..][|t| - 2] == t[|t| - 1];
    }
  }

  /** `StrUnsignedDecimalLiteral`: `Infinity`, or a numeral with an optional exponent part. */
  predicate IsUnsignedDecimalLiteral(t: string) {
    || t == "Infinity"
    || var e := FirstIndexOf(t, {'e', 'E'});
       IsDecimalNumeral(t[..e]) && (e < |t| ==> IsSignedInteger(t[e + 1..]))
  }

  function UnsignedDecimalValue(t: string): (n: Num)
    requires IsUnsignedDecimalLiteral(t)
    ensures !n.NaN? && !(n.Infinite? && n.negative)
    ensures n.Finite? ==> n.value >= 0.0
  {
    if t == "Infinity" then Infinite(false)
    else
      var e := FirstIndexOf(t, {'e', 'E'});
      var exponent := if e < |t| then SignedIntegerValue(t[e + 1..]) else 0;
      Finite(ScaleByPowerOfTen(NumeralValue(t[..e]), exponent))
  }

  /** `StrDecimalLiteral`: an unsigned decimal literal with an optional sign. */
  predicate IsStrDecimalLiteral(t: string) {
    |t| >= 1 && if t[0] == '+' || t[0] == '-' then IsUnsignedDecimalLiteral(t[1..]) else IsUnsignedDecimalLiteral(t)
  }

  function Negate(n: Num): Num {
    match n
    case Finite(v) => Finite(-v)
    case Infinite(negative) => Infinite(!negative)
    case NaN => NaN
  }

  function DecimalLiteralValue(t: string): Num
    requires IsStrDecimalLiteral(t)
  {
    if t[0] == '-' then Negate(UnsignedDecimalValue(t[1..]))
    else if t[0] == '+' then UnsignedDecimalValue(t[1..])
    else UnsignedDecimalValue(t)
  }

  /** The base a `0b`, `0o` or `0x` prefix (either case) announces, or 0 when `t` has
      no such prefix followed by at least one more character. */
  function NonDecimalBase(t: string): nat {
    if |t| >= 3 && t[0] == '0' then
      if t[1] == 'b' || t[1] == 'B' then 2
      else if t[1] == 'o' || t[1] == 'O' then 8
      else if t[1] == 'x' || t[1] == 'X' then 16
      else 0
    else 0
  }

  /** `NonDecimalIntegerLiteral`: a prefixed binary, octal or hexadecimal integer (no sign). */
  predicate IsNonDecimalIntegerLiteral(t: string) {
    NonDecimalBase(t) != 0 && AllRadixDigits(t[2..], NonDecimalBase(t))
  }

  /** `Number(s)` for a string `s`: white space around the literal is ignored, a
      blank string is 0, and anything that is not a whole literal is NaN. A negative
      result was written with a leading minus. */
  function StringToNumber(s: string): (r: Num)
    ensures (r.Finite? && r.value < 0.0) || r == Infinite(true) ==> |Trim(s)| > 0 && Trim(s)[0] == '-'
  {
    var t := Trim(s);
    if t == [] then Finite(0.0)
    else if IsNonDecimalIntegerLiteral(t) then Finite(RadixValue(t[2..], NonDecimalBase(t)) as real)
    else if IsStrDecimalLiteral(t) then DecimalLiteralValue(t)
    else NaN
  }

  /** A decimal numeral is an unsigned decimal literal of the same value. */
  lemma NumeralIsLiteral(d: string)
    requires IsDecimalNumeral(d)
    ensures IsUnsignedDecimalLiteral(d) && UnsignedDecimalValue(d) == Finite(NumeralValue(d))
  {
    NumeralCharsAll(d);
    FirstIndexOfAbsent(d, {'e', 'E'});
    assert d[..|d|] == d;
  }

  /** A trimmed decimal literal without a radix prefix converts by its decimal value. */
  lemma DecimalLiteralToNumber(t: string)
    requires Trim(t) == t && NonDecimalBase(t) == 0 && IsStrDecimalLiteral(t)
    ensures StringToNumber(t) == DecimalLiteralValue(t)
  {
  }

  /** The characters at the ends of a numeral, and its second one, are digits or points. */
  lemma NumeralEnds(d: string)
    requires IsDecimalNumeral(d)
    ensures |d| >= 1
    ensures IsDigit(d[0]) || d[0] == '.'
    ensures IsDigit(d[|d| - 1]) || d[|d| - 1] == '.'
    ensures |d| >= 2 ==> IsDigit(d[1]) || d[1] == '.'
  {
    NumeralChars(d, 0);
    NumeralChars(d, |d| - 1);
    if |d| >= 2 {
      NumeralChars(d, 1);
    }
  }

  /** A plain decimal numeral converts to its own value. */
  lemma NumeralToNumber(t: string)
    requires IsDecimalNumeral(t)
    ensures StringToNumber(t) == Finite(NumeralValue(t))
  {
    assert Trim(t) == t by { NumeralEnds(t); TrimUnchanged(t); }
    assert NonDecimalBase(t) == 0 && t[0] != '+' && t[0] != '-' by { NumeralEnds(t); }
    NumeralIsLiteral(t);
    DecimalLiteralToNumber(t);
  }

  /** A numeral with a leading minus converts to the negated value. */
  lemma NegatedNumeralToNumber(d: string)
    requires IsDecimalNumeral(d)
    ensures StringToNumber("-" + d) == Finite(-NumeralValue(d))
  {
    var t := "-" + d;
    assert t[1..] == d;
    assert Trim(t) == t by {
      NumeralEnds(d);
      assert t[|t| - 1] == d[|d| - 1];
      TrimUnchanged(t);
    }
    NumeralIsLiteral(d);
    DecimalLiteralToNumber(t);
  }

  /** The rendering of a natural number is a numeral of that value. */
  lemma NatNumeral(n: nat)
    ensures IsDecimalNumeral(NatToString(n)) && NumeralValue(NatToString(n)) == n as real
  {
    var s := NatToString(n);
    FirstIndexOfAbsent(s, {'.'});
    assert s[..|s|] == s;
    NatToStringRoundTrip(n);
  }

  /** Reading back the rendering of a natural number gives that number. */
  lemma NatToNumber(n: nat)
    ensures StringToNumber(NatToString(n)) == Finite(n as real)
  {
    NatNumeral(n);
    NumeralToNumber(NatToString(n));
  }

  /** A numeral followed by letters is not a number, unless it reads as a radix literal
      (which `NumeralThenLettersNotPrefixed` narrows to `0x…`). */
  lemma NumeralThenLettersIsNaN(d: string, u: string)
    requires IsDecimalNumeral(d) && |u| >= 1 && AllLetters(u)
    requires !IsNonDecimalIntegerLiteral(d + u)
    ensures StringToNumber(d + u) == NaN
  {
    var t := d + u;
    NumeralChars(d, 0);
    assert t[0] == d[0];
    assert t[|t| - 1] == u[|u| - 1];
    TrimUnchanged(t);
    EndsInLetterNotUnsigned(t);
  }

  /** A numeral followed by letters is no `0x…`, `0o…` or `0b…` literal, unless it is
      a lone `0` before an `x`. */
  lemma NumeralThenLettersNotPrefixed(d: string, u: string)
    requires IsDecimalNumeral(d) && |u| >= 1 && AllLetters(u)
    requires d != "0" || LowerChar(u[0]) != 'x'
    ensures !IsNonDecimalIntegerLiteral(d + u)
  {
    var t := d + u;
    if |d| >= 2 {
      NumeralChars(d, 1);
      assert t[1] == d[1];
    } else if d[0] == '0' {
      assert d == "0";
      assert t[1] == u[0];
      if |t| >= 3 {
        assert t[2..][|t| - 3] == t[|t| - 1] == u[|u| - 1];
      }
    }
  }

  /** An unsigned decimal literal that ends in a letter can only be `Infinity`: a numeral
      ends in a digit or a point, and an exponent in a digit. (A `0x…` literal may end in
      a letter; it is not a decimal literal.) */
  lemma EndsInLetterNotUnsigned(x: string)
    requires |x| >= 1 && IsAsciiLetter(x[|x| - 1]) && x != "Infinity"
    ensures !IsUnsignedDecimalLiteral(x)
  {
    var e := FirstIndexOf(x, {'e', 'E'});
    if e < |x| - 1 {
      var y := x[e + 1..];
      SignedIntegerEndsInDigit(y);
      assert y[|y| - 1] == x[|x| - 1];
    } else if e == |x| {
      assert x[..e] == x;
      NumeralChars(x, |x| - 1);
    }
  }

  /** A string that starts with a letter other than the `I` of `Infinity` is not a number. */
  lemma LetterLedIsNaN(t: string)
    requires |t| >= 1 && IsAsciiLetter(t[0]) && t[0] != 'I'
    ensures StringToNumber(t).NaN?
  {
    TrimKeeps(t, 0);
    var x := Trim(t);
    assert x[0] == t[0];
    LetterLedNotLiteral(x);
    TrimmedNotLiteralIsNaN(t);
  }

  /** A trimmed string that starts with a letter and is not `Infinity` is no literal of
      any kind. */
  lemma LetterLedNotLiteral(x: string)
    requires |x| >= 1 && IsAsciiLetter(x[0]) && x != "Infinity"
    ensures NonDecimalBase(x) == 0 && x[0] != '+' && x[0] != '-' && !IsUnsignedDecimalLiteral(x)
  {
    var e := FirstIndexOf(x, {'e', 'E'});
    if e > 0 {
      assert x[..e][0] == x[0];
      NumeralChars(x[..e], 0);
    }
  }

  /** A string that starts with a letter and holds a digit is not a number: it cannot
      trim to `Infinity`, which has no digit. */
  lemma LetterLedWithDigitIsNaN(t: string, q: nat)
    requires |t| >= 1 && IsAsciiLetter(t[0]) && q < |t| && IsDigit(t[q])
    ensures StringToNumber(t).NaN?
  {
    TrimKeepsFirstAnd(t, q);
    var x := Trim(t);
    assert x != "Infinity" by {
      assert q >= |"Infinity"| || !IsDigit("Infinity"[q]);
    }
    LetterLedNotLiteral(x);
    TrimmedNotLiteralIsNaN(t);
  }

  /** A numeral, then a letter, then anything is not a number, unless the letter could
      open an exponent or, after a lone `0`, a radix prefix. */
  lemma LetterInsideIsNaN(d: string, v: string)
    requires IsDecimalNumeral(d) && |v| >= 1 && IsAsciiLetter(v[0])
    requires LowerChar(v[0]) != 'e'
    requires d != "0" || LowerChar(v[0]) !in {'b', 'o', 'x'}
    ensures StringToNumber(d + v).NaN?
  {
    NumeralEnds(d);
    TrimKeepsPrefix(d, v);
    var w := Trim(d + v)[|d|..];
    NumeralThenLetterNoRadix(d, w);
    NumeralThenLetterNotUnsigned(d, w);
    TrimmedNotLiteralIsNaN(d + v);
  }

  /** A numeral followed by a letter has no radix prefix, unless it is a lone `0`
      before `b`, `o` or `x`. */
  lemma NumeralThenLetterNoRadix(d: string, v: string)
    requires IsDecimalNumeral(d) && |v| >= 1 && IsAsciiLetter(v[0])
    requires d != "0" || LowerChar(v[0]) !in {'b', 'o', 'x'}
    ensures NonDecimalBase(d + v) == 0
  {
    var t := d + v;
    NumeralEnds(d);
    assert t[0] == d[0];
    if |d| >= 2 { assert t[1] == d[1]; } else { assert t[1] == v[0]; }
  }

  /** A numeral followed by a letter that cannot open an exponent is not an unsigned
      decimal literal. */
  lemma NumeralThenLetterNotUnsigned(d: string, v: string)
    requires IsDecimalNumeral(d) && |v| >= 1 && IsAsciiLetter(v[0]) && LowerChar(v[0]) != 'e'
    ensures !IsUnsignedDecimalLiteral(d + v)
  {
    var t := d + v;
    NumeralEnds(d);
    assert t[0] == d[0];
    var e := FirstIndexOf(t, {'e', 'E'});
    assert t[|d|] == v[0];
    assert e > |d| by {
      NumeralCharsAll(d);
      assert forall p | 0 <= p < |d| :: t[p] == d[p];
    }
    assert t[..e][|d|] == v[0];
    NumeralChars(t[..e], |d|);
  }

  /** A string whose trimmed form has no sign and no radix prefix and is not an
      unsigned decimal literal is not a number. */
  lemma TrimmedNotLiteralIsNaN(s: string)
    requires |Trim(s)| >= 1 && NonDecimalBase(Trim(s)) == 0
    requires Trim(s)[0] != '+' && Trim(s)[0] != '-' && !IsUnsignedDecimalLiteral(Trim(s))
    ensures StringToNumber(s).NaN?
  {
  }

  /** Length of the longest prefix of `g` that is a decimal numeral, or 0 when no
      prefix is one. */
  function LeadingNumeralLength(g: string): (k: nat)
    ensures k <= |g|
    ensures k > 0 ==> IsDecimalNumeral(g[..k])
  {
    var a := RunEnd(g, 0, Digits);
    if a < |g| && g[a] == '.' then
      var b := RunEnd(g, a + 1, Digits);
      assert FirstIndexOf(g[..b], {'.'}) == a by {
        FirstIndexOfAt(g[..b], {'.'}, a);
      }
      assert g[..b][..a] == g[..a];
      assert g[..b][a + 1..] == g[a + 1..b];
      if a > 0 || b > a + 1 then b else a
    else
      assert FirstIndexOf(g[..a], {'.'}) == a by {
        FirstIndexOfAbsent(g[..a], {'.'});
      }
      assert g[..a][..a] == g[..a];
      a
  }

  lemma FirstIndexOfAt(t: string, cs: set<char>, i: nat)
    requires i < |t| && t[i] in cs && forall p | 0 <= p < i :: t[p] !in cs
    ensures FirstIndexOf(t, cs) == i
  {
    var f := FirstIndexOf(t, cs);
    assert !(f < i);
  }

  lemma FirstIndexOfAbsent(t: string, cs: set<char>)
    requires forall p | 0 <= p < |t| :: t[p] !in cs
    ensures FirstIndexOf(t, cs) == |t|
  {
  }

  /** No longer prefix of `g` is a numeral: `parseFloat` reads exactly `LeadingNumeralLength(g)` characters. */
  lemma LeadingNumeralIsLongest(g: string, j: nat)
    requires LeadingNumeralLength(g) < j <= |g|
    ensures !IsDecimalNumeral(g[..j])
  {
    var a := RunEnd(g, 0, Digits);
    var t := g[..j];
    if a < |g| && g[a] == '.' {
      var b := RunEnd(g, a + 1, Digits);
      if a > 0 || b > a + 1 {
        // the numeral stops at b, before a second point or another character
        assert t[b] == g[b] && t[a] == g[a];
        NumeralChars(t, b);
        NumeralChars(t, a);
      } else {
        // a lone point that no digit follows
        assert t[0] == '.';
        NumeralChars(t, 0);
        if j >= 2 {
          assert t[1] == g[1];
          NumeralChars(t, 1);
        }
      }
    } else {
      // the digits stop at a, before a character that is not a point
      assert t[a] == g[a];
      NumeralChars(t, a);
    }
  }

  /** `parseFloat` of the captured amount `g`, whose characters are all in `[0-9.,]`:
      with no white space, sign, exponent or `Infinity` possible, it reads the longest
      numeral prefix, and gives NaN when there is none. */
  function ParseFloatAmount(g: string): (n: Num)
    requires forall p | 0 <= p < |g| :: IsNumeralChar(g[p])
    ensures !n.Infinite?
    ensures n.Finite? ==> n.value >= 0.0
  {
    var k := LeadingNumeralLength(g);
    if k == 0 then NaN else Finite(NumeralValue(g[..k]))
  }

  /** A lone numeral is read whole by `parseFloat`. */
  lemma ParseFloatOfNumeral(g: string)
    requires IsDecimalNumeral(g)
    requires forall p | 0 <= p < |g| :: IsNumeralChar(g[p])
    ensures ParseFloatAmount(g) == Finite(NumeralValue(g))
  {
    var k := LeadingNumeralLength(g);
    assert g[..|g|] == g;
    if k < |g| {
      LeadingNumeralIsLongest(g, |g|);
    }
    assert g[..k] == g;
  }

  /** Every numeral holds a digit. */
  lemma NumeralHasDigit(m: string)
    ensures IsDecimalNumeral(m) ==> exists p | 0 <= p < |m| :: IsDigit(m[p])
  {
    if IsDecimalNumeral(m) {
      NumeralChars(m, 0);
      if !IsDigit(m[0]) {
        NumeralChars(m, 1);
        assert IsDigit(m[1]);
      }
    }
  }

  /** `parseFloat` of an amount without a digit is NaN. */
  lemma ParseFloatWithoutDigit(g: string)
    requires forall p | 0 <= p < |g| :: IsNumeralChar(g[p]) && !IsDigit(g[p])
    ensures ParseFloatAmount(g).NaN?
  {
    var k := LeadingNumeralLength(g);
    NumeralHasDigit(g[..k]);
  }

  /** Without a digit, only `Infinity` is an unsigned decimal literal. */
  lemma DigitFreeUnsigned(x: string)
    requires forall p | 0 <= p < |x| :: !IsDigit(x[p])
    requires x != "Infinity"
    ensures !IsUnsignedDecimalLiteral(x)
  {
    var e := FirstIndexOf(x, {'e', 'E'});
    NumeralHasDigit(x[..e]);
  }

  /** Without a digit, a literal can only spell an infinity. */
  lemma DigitFreeNotLiteral(t: string)
    requires forall p | 0 <= p < |t| :: !IsDigit(t[p])
    requires t !in {"Infinity", "+Infinity", "-Infinity"}
    ensures !IsStrDecimalLiteral(t) && !IsNonDecimalIntegerLiteral(t)
  {
    if |t| >= 1 && (t[0] == '+' || t[0] == '-') {
      var x := t[1..];
      assert t == [t[0]] + x;
      assert ['+'] + "Infinity" == "+Infinity" && ['-'] + "Infinity" == "-Infinity";
      assert x == "Infinity" ==> t in {"+Infinity", "-Infinity"};
      DigitFreeUnsigned(x);
    } else {
      DigitFreeUnsigned(t);
    }
  }

  /** A string with no digit converts to NaN unless it is blank or spells an infinity. */
  lemma DigitFreeIsNaN(s: string)
    requires forall p | 0 <= p < |s| :: !IsDigit(s[p])
    requires Trim(s) != [] && Trim(s) !in {"Infinity", "+Infinity", "-Infinity"}
    ensures StringToNumber(s).NaN?
  {
    var t := Trim(s);
    var front := TrimStart(s);
    assert forall p | 0 <= p < |t| :: t[p] == s[|s| - |front| + p];
    DigitFreeNotLiteral(t);
  }

  /** A signed integer holds no comma. */
  lemma SignedIntegerChars(y: string, r: nat)
    requires r < |y| && y[r] == ','
    ensures !IsSignedInteger(y)
  {
    if |y| >= 2 && (y[0] == '+' || y[0] == '-') && r >= 1 {
      assert y[1..][r - 1] == y[r];
    }
  }

  /** An unsigned decimal literal holds no comma. */
  lemma UnsignedDecimalChars(x: string, q: nat)
    requires q < |x| && x[q] == ','
    ensures !IsUnsignedDecimalLiteral(x)
  {
    assert x != "Infinity" by {
      assert q >= |"Infinity"| || "Infinity"[q] != ',';
    }
    var e := FirstIndexOf(x, {'e', 'E'});
    if q < e {
      assert x[..e][q] == x[q];
      NumeralChars(x[..e], q);
    } else if q > e {
      assert x[e + 1..][q - e - 1] == x[q];
      SignedIntegerChars(x[e + 1..], q - e - 1);
    }
  }

  /** No numeric literal holds a comma. */
  lemma CommaNotLiteral(t: string, r: nat)
    requires r < |t| && t[r] == ','
    ensures !IsNonDecimalIntegerLiteral(t) && !IsStrDecimalLiteral(t)
  {
    if r >= 2 {
      assert t[2..][r - 2] == t[r];
    }
    if t[0] == '+' || t[0] == '-' {
      assert t[1..][r - 1] == t[r];
      UnsignedDecimalChars(t[1..], r - 1);
    } else {
      UnsignedDecimalChars(t, r);
    }
  }

  /** A string with a comma converts to NaN. */
  lemma CommaIsNaN(s: string, p: nat)
    requires p < |s| && s[p] == ','
    ensures StringToNumber(s).NaN?
  {
    var t := Trim(s);
    var r := p - (|s| - |TrimStart(s)|);
    assert r < |t| && t[r] == ',' by { TrimKeeps(s, p); }
    CommaNotLiteral(t, r);
  }

  /** `parseFloat` stops at a comma: a numeral followed by a comma is read alone. */
  lemma ParseFloatStopsAtComma(d: string, rest: string)
    requires IsDecimalNumeral(d) && |rest| >= 1 && rest[0] == ','
    requires forall p | 0 <= p < |rest| :: IsNumeralChar(rest[p])
    ensures forall p | 0 <= p < |d + rest| :: IsNumeralChar((d + rest)[p])
    ensures ParseFloatAmount(d + rest) == Finite(NumeralValue(d))
  {
    var g := d + rest;
    NumeralCharsAll(d);
    assert g[..|d|] == d;
    var k := LeadingNumeralLength(g);
    if k < |d| {
      LeadingNumeralIsLongest(g, |d|);
    }
    if k > |d| {
      assert g[..k][|d|] == ',';
      NumeralChars(g[..k], |d|);
    }
  }
}
