/** `parseTime`: a time token to a number of milliseconds. A token that is a number
    is a count of seconds; otherwise the first amount followed by a unit is read,
    and the unit, compared without regard to case, picks the multiplier. */
module Durations {
  import opened Lexical
  import opened Results
  import opened NumberCoercion
  import opened TimePattern

  const Second: nat := 1000
  const Minute: nat := Second * 60
  const Hour: nat := Minute * 60
  const Day: nat := Hour * 24

  /** Milliseconds per unit, for a unit already in lower case: the `switch` of the
      source, one group of spellings per unit. */
  function UnitMultiplier(unit: string): (r: Option<nat>)
    ensures r.Some? ==> r.value in {1, Second, Minute, Hour, Day}
  {
    match unit
    case "days" | "day" | "d" => Some(Day)
    case "hours" | "hour" | "hrs" | "hr" | "h" => Some(Hour)
    case "minutes" | "minute" | "mins" | "min" | "m" => Some(Minute)
    case "seconds" | "second" | "secs" | "sec" | "s" => Some(Second)
    case "milliseconds" | "millisecond" | "msecs" | "msec" | "ms" => Some(1)
    case _ => None
  }

  /** JavaScript multiplication of a number by a non-negative integer constant: NaN
      stays NaN, an infinity times zero is NaN, and a sign survives a non-zero factor. */
  function Scale(n: Num, k: nat): (r: Num)
    ensures k == 1 ==> r == n
    ensures r.NaN? <==> n.NaN? || (n.Infinite? && k == 0)
    ensures r.Finite? <==> n.Finite?
    ensures r.Finite? ==> (r.value < 0.0 <==> n.value < 0.0 && k > 0)
  {
    match n
    case Finite(v) => Finite(v * k as real)
    case Infinite(negative) => if k == 0 then NaN else Infinite(negative)
    case NaN => NaN
  }

  /** The interval, in milliseconds, that `time` denotes. */
  function ParseTime(time: string): (r: Result<Num>)
    ensures r.Err? ==> StringToNumber(time).NaN? && !r.error.NoCommand?
    ensures StringToNumber(time).NaN? && r.Ok? ==> r.value.NaN? || (r.value.Finite? && r.value.value >= 0.0)
  {
    var n := StringToNumber(time);
    if !n.NaN? then Ok(Scale(n, 1000)) else ParseAmountAndUnit(time)
  }

  /** The branch for a token that is not a number: the first amount followed by a
      unit, the amount read by `parseFloat`, the unit looked up in lower case. The
      pattern admits no sign, so the result is never negative. */
  function ParseAmountAndUnit(time: string): (r: Result<Num>)
    ensures r.Err? ==> !r.error.NoCommand?
    ensures r.Ok? ==> r.value.NaN? || (r.value.Finite? && r.value.value >= 0.0)
  {
    match FindPattern(time)
    case None => Err(CouldNotParse(time))
    case Some(m) =>
      var amount := ParseFloatAmount(time[m.start..m.amountEnd]);
      ApplyUnit(amount, time[m.amountEnd..m.unitEnd])
  }

  /** The unit, lower-cased, picks the multiplier for the amount; a unit that is no
      known spelling is reported as written. */
  function ApplyUnit(amount: Num, unit: string): (r: Result<Num>)
    ensures r.Err? ==> r.error == UnknownUnit(unit)
  {
    LowerAsciiLowers(unit);
    match UnitMultiplier(LowerAscii(unit))
    case None => Err(UnknownUnit(unit))
    case Some(k) => Ok(Scale(amount, k))
  }

  /** The larger units are built from the second by the factors of the clock. The first
      clause holds by the definitions above; the second gives the values they reach. */
  lemma MultiplierChain()
    ensures Second == 1000 && Minute == 60 * Second && Hour == 60 * Minute && Day == 24 * Hour
    ensures Minute == 60_000 && Hour == 3_600_000 && Day == 86_400_000
  {
  }

  /** A token that is a plain decimal numeral is that many seconds. */
  lemma NumeralIsSeconds(t: string)
    requires IsDecimalNumeral(t)
    ensures ParseTime(t) == Ok(Scale(Finite(NumeralValue(t)), 1000))
  {
    NumeralToNumber(t);
    NumberBranch(t);
  }

  /** A whole number of seconds, written in decimal, reads back as that many thousand
      milliseconds. */
  lemma WholeSecondsRoundTrip(n: nat)
    ensures ParseTime(NatToString(n)) == Ok(Scale(Finite(n as real), 1000))
  {
    NatToNumber(n);
    NumberBranch(NatToString(n));
  }

  /** A decimal numeral with a minus sign is accepted as a negative interval: nothing
      rejects a sign on the number branch. */
  lemma NegativeNumeralIsSeconds(d: string)
    requires IsDecimalNumeral(d)
    ensures ParseTime("-" + d) == Ok(Scale(Finite(-NumeralValue(d)), 1000))
  {
    NegatedNumeralToNumber(d);
    NumberBranch("-" + d);
  }

  /** A blank token, empty or white space alone, is read by `Number` as 0: it is not
      rejected but gives an interval of 0. */
  lemma BlankIsZero(time: string)
    requires forall p | 0 <= p < |time| :: IsStrWhiteSpace(time[p])
    ensures ParseTime(time) == Ok(Scale(Finite(0.0), 1000))
  {
    TrimBlank(time);
    NumberBranch(time);
  }

  /** A number that comes out negative was written with a minus sign: the pattern
      branch admits no sign. */
  lemma NegativeOnlyWithMinus(time: string, v: real)
    requires ParseTime(time) == Ok(Finite(v)) && v < 0.0
    ensures |Trim(time)| > 0 && Trim(time)[0] == '-'
  {
    var n := StringToNumber(time);
    assert n.Finite? && n.value < 0.0;
  }

  /** A token that is a number is that many seconds. */
  lemma NumberBranch(time: string)
    requires !StringToNumber(time).NaN?
    ensures ParseTime(time) == Ok(Scale(StringToNumber(time), 1000))
  {
  }

  /** A token that is not a number goes to the pattern branch. */
  lemma PatternBranch(time: string)
    requires StringToNumber(time).NaN?
    ensures ParseTime(time) == ParseAmountAndUnit(time)
  {
  }

  /** In a run of `[0-9.,]` followed by letters, the pattern matches the run and all
      the letters. */
  lemma AmountThenLettersMatch(g: string, u: string)
    requires |g| >= 1 && (forall p | 0 <= p < |g| :: IsNumeralChar(g[p]))
    requires |u| >= 1 && AllLetters(u)
    ensures FindPattern(g + u) == Some(Match(0, |g|, |g + u|))
  {
    var s := g + u;
    assert forall p | 0 <= p < |g| :: s[p] == g[p];
    assert forall p | |g| <= p < |s| :: s[p] == u[p - |g|];
    RunEndIs(s, 0, |g|, Numerals);
    RunEndIs(s, |g|, |s|, Letters);
    assert MatchesAt(s, 0);
  }

  /** The pattern branch on a run of `[0-9.,]` followed by letters: `parseFloat` reads
      the run, and the letters are the unit. */
  lemma AmountThenUnitBranch(g: string, u: string)
    requires |g| >= 1 && (forall p | 0 <= p < |g| :: IsNumeralChar(g[p]))
    requires |u| >= 1 && AllLetters(u)
    ensures ParseAmountAndUnit(g + u) == ApplyUnit(ParseFloatAmount(g), u)
  {
    var s := g + u;
    AmountThenLettersMatch(g, u);
    assert s[0..|g|] == g;
    assert s[|g|..|s|] == u;
  }

  /** The unit is the whole letter run and no more: whatever follows it is ignored. */
  lemma UnitEndsAtNonLetter(g: string, u: string, rest: string)
    requires |g| >= 1 && (forall p | 0 <= p < |g| :: IsNumeralChar(g[p]))
    requires |u| >= 1 && AllLetters(u)
    requires |rest| >= 1 && !IsAsciiLetter(rest[0])
    ensures ParseAmountAndUnit(g + u + rest) == ApplyUnit(ParseFloatAmount(g), u)
  {
    var s := g + u + rest;
    var e := |g| + |u|;
    assert forall p | 0 <= p < |g| :: s[p] == g[p];
    assert forall p | |g| <= p < e :: s[p] == u[p - |g|];
    assert s[e] == rest[0];
    RunEndIs(s, 0, |g|, Numerals);
    RunEndIs(s, |g|, e, Letters);
    assert MatchesAt(s, 0);
    assert s[0..|g|] == g;
    assert s[|g|..e] == u;
  }

  /** The pattern is not anchored: characters outside `[0-9.,]` before the amount are
      skipped, and the match starts at the amount. */
  lemma LeadingTextSkipped(w: string, g: string, u: string)
    requires forall p | 0 <= p < |w| :: !IsNumeralChar(w[p])
    requires |g| >= 1 && (forall p | 0 <= p < |g| :: IsNumeralChar(g[p]))
    requires |u| >= 1 && AllLetters(u)
    ensures ParseAmountAndUnit(w + g + u) == ApplyUnit(ParseFloatAmount(g), u)
  {
    var s := w + g + u;
    var a := |w|;
    var e := |w| + |g|;
    assert RunEnd(s, a, Numerals) == e && RunEnd(s, e, Letters) == |s| by {
      assert forall p | a <= p < e :: s[p] == g[p - a];
      assert forall p | e <= p < |s| :: s[p] == u[p - e];
      RunEndIs(s, a, e, Numerals);
      RunEndIs(s, e, |s|, Letters);
    }
    assert forall p | 0 <= p < a :: s[p] == w[p];
    assert s[e] == u[0];
    MatchAfterText(s, a);
    assert s[a..e] == g && s[e..|s|] == u;
  }

  /** The pattern branch on a numeral followed by letters. */
  lemma AmountWithUnitBranch(d: string, u: string)
    requires IsDecimalNumeral(d) && |u| >= 1 && AllLetters(u)
    ensures ParseAmountAndUnit(d + u) == ApplyUnit(Finite(NumeralValue(d)), u)
  {
    NumeralCharsAll(d);
    AmountThenUnitBranch(d, u);
    ParseFloatOfNumeral(d);
  }

  /** The amount class admits commas, but `parseFloat` stops at the first one: a
      numeral, then a comma and more of the class, then letters, is the numeral alone
      in the unit, so "1,5s" is one second. */
  lemma CommaCutsAmount(d: string, rest: string, u: string)
    requires IsDecimalNumeral(d) && |rest| >= 1 && rest[0] == ','
    requires forall p | 0 <= p < |rest| :: IsNumeralChar(rest[p])
    requires |u| >= 1 && AllLetters(u)
    ensures ParseTime(d + rest + u) == ApplyUnit(Finite(NumeralValue(d)), u)
  {
    var g := d + rest;
    assert (g + u)[|d|] == ',';
    CommaIsNaN(g + u, |d|);
    PatternBranch(g + u);
    ParseFloatStopsAtComma(d, rest);
    AmountThenUnitBranch(g, u);
  }

  /** An amount that starts with a comma has no numeral for `parseFloat` to read: a
      known unit gives NaN. */
  lemma LeadingCommaGivesNaN(g: string, u: string)
    requires |g| >= 1 && g[0] == ','
    requires forall p | 0 <= p < |g| :: IsNumeralChar(g[p])
    requires |u| >= 1 && AllLetters(u)
    ensures ParseTime(g + u) == ApplyUnit(NaN, u)
  {
    assert ParseFloatAmount(g) == NaN;
    CommaIsNaN(g + u, 0);
    PatternBranch(g + u);
    AmountThenUnitBranch(g, u);
  }

  /** A numeral followed by letters and nothing else, unless it reads as a radix
      literal (only `0x…` can): the letters are the unit, and a known spelling in any
      case scales the numeral's value, while any other fails with the unit as written. */
  lemma AmountWithUnit(d: string, u: string)
    requires IsDecimalNumeral(d) && |u| >= 1 && AllLetters(u)
    requires !IsNonDecimalIntegerLiteral(d + u)
    ensures ParseTime(d + u) == ApplyUnit(Finite(NumeralValue(d)), u)
  {
    NumeralThenLettersIsNaN(d, u);
    PatternBranch(d + u);
    AmountWithUnitBranch(d, u);
  }

  /** A token made of a whole amount, written in decimal, and letters. */
  lemma WholeAmountWithUnit(n: nat, u: string, time: string)
    requires |u| >= 1 && AllLetters(u)
    requires time == NatToString(n) + u && !IsNonDecimalIntegerLiteral(time)
    ensures ParseTime(time) == ApplyUnit(Finite(n as real), u)
  {
    NatNumeral(n);
    AmountWithUnit(NatToString(n), u);
  }

  /** A token made of a word, a whole amount and letters: the word is skipped and the
      letters are the unit. */
  lemma WholeAmountAfterText(w: string, n: nat, u: string, time: string)
    requires |w| >= 1 && IsAsciiLetter(w[0])
    requires forall p | 0 <= p < |w| :: !IsNumeralChar(w[p])
    requires |u| >= 1 && AllLetters(u)
    requires time == w + NatToString(n) + u
    ensures ParseTime(time) == ApplyUnit(Finite(n as real), u)
  {
    var d := NatToString(n);
    NatNumeral(n);
    assert time[0] == w[0] && time[|w|] == d[0];
    LetterLedWithDigitIsNaN(time, |w|);
    NumeralCharsAll(d);
    LeadingTextSkipped(w, d, u);
    ParseFloatOfNumeral(d);
    PatternBranch(time);
  }

  /** A token made of a whole amount, letters, and a rest that does not start with a
      letter: the rest is ignored. */
  lemma WholeAmountUnitThenRest(n: nat, u: string, rest: string, time: string)
    requires |u| >= 1 && AllLetters(u)
    requires LowerChar(u[0]) != 'e'
    requires n != 0 || LowerChar(u[0]) !in {'b', 'o', 'x'}
    requires |rest| >= 1 && !IsAsciiLetter(rest[0])
    requires time == NatToString(n) + u + rest
    ensures ParseTime(time) == ApplyUnit(Finite(n as real), u)
  {
    var d := NatToString(n);
    NatNumeral(n);
    assert n == 0 ==> d == "0";
    assert time == d + (u + rest);
    LetterInsideIsNaN(d, u + rest);
    NumeralCharsAll(d);
    UnitEndsAtNonLetter(d, u, rest);
    ParseFloatOfNumeral(d);
    PatternBranch(time);
  }

  /** The table of units: every spelling scales the amount by its unit, shown in lower
      case and in sample capitalisations (`ApplyUnitCaseInsensitive` gives the rest). */
  lemma DayUnit(x: Num)
    ensures ApplyUnit(x, "days") == Ok(Scale(x, 86_400_000))
    ensures ApplyUnit(x, "day") == Ok(Scale(x, 86_400_000))
    ensures ApplyUnit(x, "d") == Ok(Scale(x, 86_400_000))
    ensures ApplyUnit(x, "Days") == Ok(Scale(x, 86_400_000))
    ensures ApplyUnit(x, "DAY") == Ok(Scale(x, 86_400_000))
    ensures ApplyUnit(x, "D") == Ok(Scale(x, 86_400_000))
  {
    assert LowerAscii("days") == "days";
    assert LowerAscii("day") == "day";
    assert LowerAscii("d") == "d";
    assert LowerAscii("Days") == "days";
    assert LowerAscii("DAY") == "day";
    assert LowerAscii("D") == "d";
  }

  lemma HourUnit(x: Num)
    ensures ApplyUnit(x, "hours") == Ok(Scale(x, 3_600_000))
    ensures ApplyUnit(x, "hour") == Ok(Scale(x, 3_600_000))
    ensures ApplyUnit(x, "hrs") == Ok(Scale(x, 3_600_000))
    ensures ApplyUnit(x, "hr") == Ok(Scale(x, 3_600_000))
    ensures ApplyUnit(x, "h") == Ok(Scale(x, 3_600_000))
    ensures ApplyUnit(x, "Hours") == Ok(Scale(x, 3_600_000))
    ensures ApplyUnit(x, "HRS") == Ok(Scale(x, 3_600_000))
    ensures ApplyUnit(x, "H") == Ok(Scale(x, 3_600_000))
  {
    assert LowerAscii("hours") == "hours";
    assert LowerAscii("hour") == "hour";
    assert LowerAscii("hrs") == "hrs";
    assert LowerAscii("hr") == "hr";
    assert LowerAscii("h") == "h";
    assert LowerAscii("Hours") == "hours";
    assert LowerAscii("HRS") == "hrs";
    assert LowerAscii("H") == "h";
  }

  lemma MinuteUnit(x: Num)
    ensures ApplyUnit(x, "minutes") == Ok(Scale(x, 60_000))
    ensures ApplyUnit(x, "minute") == Ok(Scale(x, 60_000))
    ensures ApplyUnit(x, "mins") == Ok(Scale(x, 60_000))
    ensures ApplyUnit(x, "min") == Ok(Scale(x, 60_000))
    ensures ApplyUnit(x, "m") == Ok(Scale(x, 60_000))
    ensures ApplyUnit(x, "Minutes") == Ok(Scale(x, 60_000))
    ensures ApplyUnit(x, "MIN") == Ok(Scale(x, 60_000))
    ensures ApplyUnit(x, "M") == Ok(Scale(x, 60_000))
  {
    assert LowerAscii("minutes") == "minutes";
    assert LowerAscii("minute") == "minute";
    assert LowerAscii("mins") == "mins";
    assert LowerAscii("min") == "min";
    assert LowerAscii("m") == "m";
    assert LowerAscii("Minutes") == "minutes";
    assert LowerAscii("MIN") == "min";
    assert LowerAscii("M") == "m";
  }

  lemma SecondUnit(x: Num)
    ensures ApplyUnit(x, "seconds") == Ok(Scale(x, 1000))
    ensures ApplyUnit(x, "second") == Ok(Scale(x, 1000))
    ensures ApplyUnit(x, "secs") == Ok(Scale(x, 1000))
    ensures ApplyUnit(x, "sec") == Ok(Scale(x, 1000))
    ensures ApplyUnit(x, "s") == Ok(Scale(x, 1000))
    ensures ApplyUnit(x, "Seconds") == Ok(Scale(x, 1000))
    ensures ApplyUnit(x, "SECS") == Ok(Scale(x, 1000))
    ensures ApplyUnit(x, "S") == Ok(Scale(x, 1000))
  {
    assert LowerAscii("seconds") == "seconds";
    assert LowerAscii("second") == "second";
    assert LowerAscii("secs") == "secs";
    assert LowerAscii("sec") == "sec";
    assert LowerAscii("s") == "s";
    assert LowerAscii("Seconds") == "seconds";
    assert LowerAscii("SECS") == "secs";
    assert LowerAscii("S") == "s";
  }

  lemma MillisecondUnit(x: Num)
    ensures ApplyUnit(x, "milliseconds") == Ok(x)
    ensures ApplyUnit(x, "millisecond") == Ok(x)
    ensures ApplyUnit(x, "msecs") == Ok(x)
    ensures ApplyUnit(x, "msec") == Ok(x)
    ensures ApplyUnit(x, "ms") == Ok(x)
    ensures ApplyUnit(x, "Milliseconds") == Ok(x)
    ensures ApplyUnit(x, "MSECS") == Ok(x)
    ensures ApplyUnit(x, "MS") == Ok(x)
  {
    AsGiven(x, "milliseconds", "milliseconds");
    AsGiven(x, "millisecond", "millisecond");
    AsGiven(x, "msecs", "msecs");
    AsGiven(x, "msec", "msec");
    AsGiven(x, "ms", "ms");
    AsGiven(x, "Milliseconds", "milliseconds");
    AsGiven(x, "MSECS", "msecs");
    AsGiven(x, "MS", "ms");
  }

  /** A unit worth one millisecond returns the amount itself. */
  lemma AsGiven(x: Num, u: string, lower: string)
    requires LowerAscii(u) == lower && UnitMultiplier(lower) == Some(1)
    ensures ApplyUnit(x, u) == Ok(x)
  {
    assert Scale(x, 1) == x;
  }

  /** Every spelling the unit table knows, in lower case. */
  const Spellings: set<string> := {
    "days", "day", "d",
    "hours", "hour", "hrs", "hr", "h",
    "minutes", "minute", "mins", "min", "m",
    "seconds", "second", "secs", "sec", "s",
    "milliseconds", "millisecond", "msecs", "msec", "ms"
  }

  /** The lookup succeeds exactly for the known spellings, in any case; it scales by
      one of the five multipliers, and a failure names the unit as written. */
  lemma ApplyUnitIff(x: Num, u: string)
    ensures ApplyUnit(x, u).Ok? <==> LowerAscii(u) in Spellings
    ensures ApplyUnit(x, u).Ok? ==>
      exists k | k in {1, Second, Minute, Hour, Day} :: ApplyUnit(x, u).value == Scale(x, k)
    ensures ApplyUnit(x, u).Err? ==> ApplyUnit(x, u).error == UnknownUnit(u)
  {
    var k := UnitMultiplier(LowerAscii(u));
    if k.Some? {
      assert k.value in {1, Second, Minute, Hour, Day};
    }
  }

  /** Unit spellings are compared without regard to case: two units with the same
      lower-case form give the same outcome, apart from the unit an error quotes. */
  lemma ApplyUnitCaseInsensitive(x: Num, u: string, v: string)
    requires LowerAscii(u) == LowerAscii(v)
    ensures ApplyUnit(x, u).Ok? <==> ApplyUnit(x, v).Ok?
    ensures ApplyUnit(x, u).Ok? ==> ApplyUnit(x, u).value == ApplyUnit(x, v).value
  {
  }

  /** `5D` and `5d` agree: units that differ only in the case of their letters give the
      same outcome. */
  lemma ApplyUnitIgnoresCase(x: Num, u: string, v: string)
    requires |u| == |v| && forall i | 0 <= i < |u| :: SameIgnoringCase(u[i], v[i])
    ensures ApplyUnit(x, u).Ok? <==> ApplyUnit(x, v).Ok?
    ensures ApplyUnit(x, u).Ok? ==> ApplyUnit(x, u).value == ApplyUnit(x, v).value
  {
    LowerAsciiFolds(u, v);
    ApplyUnitCaseInsensitive(x, u, v);
  }

  /** A token fails with "Couldn't parse given time" exactly when it is not a number
      and no run of `[0-9.,]` in it is directly followed by a letter; the error
      quotes the token. */
  lemma CouldNotParseIff(time: string)
    ensures ParseTime(time).Err? && ParseTime(time).error.CouldNotParse? <==>
      StringToNumber(time).NaN? && !exists i: nat, j: nat, k: nat :: Spans(time, i, j, k)
    ensures ParseTime(time).Err? && ParseTime(time).error.CouldNotParse? ==>
      ParseTime(time).error.time == time
  {
    FindPatternIsLeftmostGreedy(time);
  }

  /** A token fails with "Unknown unit" exactly when it is not a number, the pattern
      matches, and the matched unit, lower-cased, is no known spelling; the error
      names the unit as written. */
  lemma UnknownUnitIff(time: string)
    ensures ParseTime(time).Err? && ParseTime(time).error.UnknownUnit? <==>
      && StringToNumber(time).NaN?
      && FindPattern(time).Some?
      && UnitMultiplier(LowerAscii(time[FindPattern(time).value.amountEnd..FindPattern(time).value.unitEnd])).None?
    ensures ParseTime(time).Err? && ParseTime(time).error.UnknownUnit? ==>
      var m := FindPattern(time).value;
      && Spans(time, m.start, m.amountEnd, m.unitEnd)
      && ParseTime(time).error.unit == time[m.amountEnd..m.unitEnd]
      && AllLetters(ParseTime(time).error.unit)
  {
    if StringToNumber(time).NaN? {
      PatternBranch(time);
      UnknownUnitInPattern(time);
    } else {
      NumberBranch(time);
    }
  }

  lemma UnknownUnitInPattern(time: string)
    ensures ParseAmountAndUnit(time).Err? && ParseAmountAndUnit(time).error.UnknownUnit? <==>
      && FindPattern(time).Some?
      && UnitMultiplier(LowerAscii(time[FindPattern(time).value.amountEnd..FindPattern(time).value.unitEnd])).None?
    ensures ParseAmountAndUnit(time).Err? && ParseAmountAndUnit(time).error.UnknownUnit? ==>
      var m := FindPattern(time).value;
      && Spans(time, m.start, m.amountEnd, m.unitEnd)
      && ParseAmountAndUnit(time).error.unit == time[m.amountEnd..m.unitEnd]
      && AllLetters(ParseAmountAndUnit(time).error.unit)
  {
    FindPatternIsLeftmostGreedy(time);
  }

  /** A token with no digit, point or comma is rejected with the token quoted, unless it
      is blank or spells an infinity. */
  lemma NoAmountFails(time: string)
    requires forall p | 0 <= p < |time| :: !IsNumeralChar(time[p])
    requires Trim(time) != [] && Trim(time) !in {"Infinity", "+Infinity", "-Infinity"}
    ensures ParseTime(time) == Err(CouldNotParse(time))
  {
    DigitFreeIsNaN(time);
    PatternBranch(time);
    assert forall i: nat | i < |time| :: !MatchesAt(time, i);
  }

  /** A bare word of letters cannot be parsed, unless it spells `Infinity`. */
  lemma WordFails(time: string)
    requires |time| > 0 && AllLetters(time) && time != "Infinity"
    ensures ParseTime(time) == Err(CouldNotParse(time))
  {
    TrimUnchanged(time);
    NoAmountFails(time);
  }

  /** A token with no digit never yields a number of milliseconds, unless it is blank
      (which `Number` reads as 0) or spells an infinity: it fails, or gives NaN when a
      lone `.` or `,` stands before a unit. */
  lemma DigitFreeGivesNoNumber(time: string)
    requires forall p | 0 <= p < |time| :: !IsDigit(time[p])
    requires Trim(time) != [] && Trim(time) !in {"Infinity", "+Infinity", "-Infinity"}
    ensures ParseTime(time).Ok? ==> ParseTime(time).value.NaN?
  {
    DigitFreeIsNaN(time);
    PatternBranch(time);
    DigitFreeBranch(time);
  }

  lemma DigitFreeBranch(time: string)
    requires forall p | 0 <= p < |time| :: !IsDigit(time[p])
    ensures ParseAmountAndUnit(time).Ok? ==> ParseAmountAndUnit(time).value.NaN?
  {
    match FindPattern(time)
    case None =>
    case Some(m) =>
      ParseFloatWithoutDigit(time[m.start..m.amountEnd]);
  }
}
