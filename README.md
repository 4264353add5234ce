# interval — a Dafny model of its start-up and `parseTime`

`interval` is a small Deno tool. It runs a command over and over, waiting a given time
between runs: `interval 10s cmd --arg1 arg2 …`. Its first argument is the time token.
The rest of the arguments are the command line.

This project models the two parts of the tool that compute something:

- the start-up (`Cli.Start`) checks that there are at least two arguments, takes the
  first one off as the time token, parses it, and keeps the rest as the command;
- `parseTime` (`Durations.ParseTime`) turns a time token into a number of milliseconds.

`parseTime` first coerces the whole token with JavaScript's `Number`. If the result is
not NaN, the token is a count of seconds and is multiplied by 1000. Otherwise the first
match of `/([0-9.,]+)([a-z]+)/i` is taken. The amount group is read by `parseFloat`.
The unit group, lower-cased, picks the multiplier from a table of 23 spellings. There
are two errors: no match ("Couldn't parse given time") and an unknown unit ("Unknown
unit").

The model is built in layers:

- `Lexical`: character classes, trimming and greedy runs.
- `NumberCoercion`: `Number` on a string, following the StringToNumber grammar of
  ECMAScript (white space, sign, `Infinity`, exponent, `0b`/`0o`/`0x`). Also
  `parseFloat` on the captured amount.
- `TimePattern`: the first match of the pattern, leftmost and greedy.
- `Durations`: `parseTime`, the unit table, and the error cases.
- `Cli`: the argument check and split.
- `Examples`: tokens from the tool's usage lines, worked through.

Numbers are `Num`: an exact rational, a signed infinity, or NaN.

The tool's own description and its code disagree in two places. The model follows
the code:

- The doc comment of `parseTime` (readme.ts:45-46) says the result is in microseconds.
  Every branch of the code yields milliseconds, and so does the model.
- The usage text (readme.ts:14) lists milliseconds, seconds, minutes and days as the
  available units. The code also accepts hours (readme.ts:72-77), and so does the model
  (`Durations.HourUnit`).

The code also has these behaviours worth knowing, which the description does not
mention:

- The empty token is not rejected. `Number("")` is 0, so the interval is 0 ms
  (`Durations.BlankIsZero`).
- A signed number such as `-5` is accepted on the number branch and gives a negative
  interval (`Durations.NegativeNumeralIsSeconds`). Only the pattern branch excludes a
  sign (`Durations.NegativeOnlyWithMinus`).
- The amount class admits commas, but `parseFloat` stops at the first one.
  - `1,5s` is one second (`Durations.CommaCutsAmount`).
  - `,5s` is NaN (`Durations.LeadingCommaGivesNaN`).

  The model keeps this behaviour as written.

## Model

| member | source | states |
|---|---|---|
| Durations.Scale | readme.ts:51-95 | JavaScript's `amount * k` for a unit constant `k`. Multiplying by 1 changes nothing. The result is NaN exactly when the amount is NaN, or is an infinity times 0. It is finite exactly when the amount is, and then negative exactly when the amount is negative and `k` is not 0. |
| Durations.UnitMultiplier | readme.ts:67-95 | The `switch` on the lower-cased unit: one of the five multipliers (1, 1000, 60000, 3600000, 86400000 ms) or none. The spellings it accepts are stated by `Durations.ApplyUnitIff`. |
| Durations.ApplyUnit | readme.ts:67-97 | Lower-cases the unit and looks it up. A failure is the unknown-unit error naming the unit as written. `Durations.ApplyUnitIff` says when it succeeds and with which multiplier. |
| Durations.ParseTime | readme.ts:50-99 | A failure happens only when `Number(time)` is NaN, and it is never the argument-count error. On the pattern branch the result is NaN or a non-negative finite value. |
| Durations.ParseAmountAndUnit | readme.ts:53-97 | The pattern branch fails only with a parse or unit error. A success is NaN or a non-negative finite value, because the pattern admits no sign. |
| Durations.NumeralIsSeconds | readme.ts:51 | A plain decimal numeral (`10`, `2.5`, `.5`) is that many seconds, times 1000. |
| Durations.WholeSecondsRoundTrip | readme.ts:51 | For every natural `n`, the decimal rendering of `n` parses to `n` seconds: rendering and parsing are inverse. |
| Durations.NegativeNumeralIsSeconds | readme.ts:51 | A numeral with a minus sign gives the negated number of seconds; nothing rejects the sign. |
| Durations.BlankIsZero | readme.ts:51 | An empty or all-white-space token gives an interval of 0 rather than an error. |
| Durations.NegativeOnlyWithMinus | readme.ts:50-99 | A negative finite interval comes only from a token whose trimmed form starts with `-`. |
| Durations.MultiplierChain | readme.ts:62-65 | The second is 1000 ms; minute, hour and day are 60, 60 and 24 times the previous unit (60000, 3600000, 86400000 ms). |
| Durations.DayUnit | readme.ts:68-71 | `days`, `day` and `d` scale the amount by 86400000, in lower case and in sample capitalisations. Every other capitalisation follows from `Durations.ApplyUnitIgnoresCase`. |
| Durations.HourUnit | readme.ts:72-77 | `hours`, `hour`, `hrs`, `hr` and `h` scale the amount by 3600000, in lower case and in sample capitalisations. Every other capitalisation follows from `Durations.ApplyUnitIgnoresCase`. |
| Durations.MinuteUnit | readme.ts:78-83 | `minutes`, `minute`, `mins`, `min` and `m` scale the amount by 60000, in lower case and in sample capitalisations. Every other capitalisation follows from `Durations.ApplyUnitIgnoresCase`. |
| Durations.SecondUnit | readme.ts:84-89 | `seconds`, `second`, `secs`, `sec` and `s` scale the amount by 1000, in lower case and in sample capitalisations. Every other capitalisation follows from `Durations.ApplyUnitIgnoresCase`. |
| Durations.MillisecondUnit | readme.ts:90-95 | `milliseconds`, `millisecond`, `msecs`, `msec` and `ms` return the amount itself, in lower case and in sample capitalisations. Every other capitalisation follows from `Durations.ApplyUnitIgnoresCase`. |
| Durations.ApplyUnitIff | readme.ts:67-97 | The unit lookup succeeds exactly when the lower-cased unit is one of the 23 spellings, and then scales by one of the five multipliers. Otherwise it fails with the unit as written. |
| Durations.ApplyUnitCaseInsensitive | readme.ts:67 | Two units with the same lower-case form give the same success and the same value. |
| Durations.ApplyUnitIgnoresCase | readme.ts:67-95 | Two units that differ only in the case of their letters (`5D` and `5d`) give the same success and the same value. |
| Durations.AmountThenLettersMatch | readme.ts:53 | On a run of `[0-9.,]` followed by letters alone, the match is the whole run and all the letters. |
| Durations.AmountThenUnitBranch | readme.ts:53-60 | The pattern branch on such a token applies the unit to `parseFloat` of the run. |
| Durations.AmountWithUnitBranch | readme.ts:53-60 | The pattern branch on a numeral followed by letters applies the unit to the numeral's value. |
| Durations.AmountWithUnit | readme.ts:50-99 | A numeral followed by letters, unless it reads as a `0b`/`0o`/`0x` literal, scales the value by the unit or fails with the unit as written. So `0xs` is parsed on the pattern branch. |
| Durations.WholeAmountWithUnit | readme.ts:50-99 | The same, for a whole amount written in decimal, unless the token reads as a `0b`/`0o`/`0x` literal. |
| Durations.UnitEndsAtNonLetter | readme.ts:53-60 | The unit group is the whole letter run and stops at the first non-letter: an amount, letters, then a rest that starts with a non-letter give the unit applied to `parseFloat` of the amount. |
| Durations.LeadingTextSkipped | readme.ts:53-60 | The pattern is not anchored: text with no `[0-9.,]` before an amount is skipped, and the letters after the amount are the unit. |
| Durations.WholeAmountAfterText | readme.ts:50-99 | A word that starts with a letter (`In` included), then a whole amount and letters, is parsed from the amount on. |
| Durations.WholeAmountUnitThenRest | readme.ts:50-99 | A whole amount, letters, then any rest that starts with a non-letter (trailing white space included), is the amount in that unit. The rest is ignored. This holds unless the letters start with `e`/`E` (an exponent) or, after `0`, with `b`, `o` or `x` in either case (a radix prefix). |
| Durations.CommaCutsAmount | readme.ts:53-59 | A numeral, then a comma and more `[0-9.,]`, then a unit, gives the unit applied to the numeral alone. |
| Durations.LeadingCommaGivesNaN | readme.ts:59 | An amount that starts with a comma gives NaN scaled by the unit, not an error, when the unit is known. |
| Durations.CouldNotParseIff | readme.ts:53-57 | The parse error happens exactly when `Number` gives NaN and no `[0-9.,]` run is directly followed by a letter. The error quotes the token. |
| Durations.UnknownUnitIff | readme.ts:96-97 | The unit error happens exactly when `Number` gives NaN, the pattern matches, and the lower-cased unit is no known spelling. The error names the matched letters as written. |
| Durations.UnknownUnitInPattern | readme.ts:53-97 | The same equivalence for the pattern branch alone. |
| Durations.NoAmountFails | readme.ts:53-57 | A token with no digit, point or comma fails with the parse error, unless it is blank or an infinity. |
| Durations.WordFails | readme.ts:53-57 | A word of letters other than `Infinity` fails with the parse error. |
| Durations.DigitFreeGivesNoNumber | readme.ts:50-99 | A token with no digit never gives a finite interval, unless it is blank or an infinity. |
| Durations.DigitFreeBranch | readme.ts:53-60 | On the pattern branch, an amount with no digit gives NaN or a failure. |
| NumberCoercion.StringToNumber | readme.ts:51 | `Number(time)`: surrounding white space is ignored, a blank string is 0, a `0b`/`0o`/`0x` literal or a signed decimal literal gives its value, and anything else is NaN. A negative result, finite or `-Infinity`, comes only from a trimmed string that starts with `-`. The rows below state its values on numerals and its NaN cases. |
| NumberCoercion.NumeralToNumber | readme.ts:51 | `Number` of a plain decimal numeral is its value. |
| NumberCoercion.NegatedNumeralToNumber | readme.ts:51 | `Number` of `-` followed by a numeral is the negated value. |
| NumberCoercion.NatToNumber | readme.ts:51 | `Number` of the decimal rendering of `n` is `n`. |
| NumberCoercion.NumeralThenLettersIsNaN | readme.ts:51 | A numeral followed by letters is NaN for `Number`, unless it is a `0b`/`0o`/`0x` literal. So such tokens reach the pattern branch. |
| NumberCoercion.NumeralThenLettersNotPrefixed | readme.ts:51 | A numeral followed by letters is no `0b`/`0o`/`0x` literal, except `0x…`. |
| NumberCoercion.EndsInLetterNotUnsigned | readme.ts:51 | An unsigned decimal literal that ends in a letter can only be `Infinity`. |
| NumberCoercion.LetterLedIsNaN | readme.ts:51 | Any string that starts with a letter other than `I` is NaN for `Number`, whatever follows, trailing white space included. |
| NumberCoercion.LetterLedNotLiteral | readme.ts:51 | A trimmed string that starts with a letter and is not `Infinity` has no radix prefix, no sign, and is no unsigned decimal literal. |
| NumberCoercion.LetterLedWithDigitIsNaN | readme.ts:51 | Any string that starts with a letter and holds a digit anywhere is NaN for `Number`. |
| NumberCoercion.LetterInsideIsNaN | readme.ts:51 | A numeral, then a letter, then anything, trailing white space included, is NaN for `Number`. The exceptions are a letter `e`/`E` (an exponent) and, after a lone `0`, `b`, `o` or `x` in either case (a radix prefix). |
| NumberCoercion.NumeralThenLetterNoRadix | readme.ts:51 | A numeral followed by a letter has no radix prefix, unless it is a lone `0` before `b`, `o` or `x` in either case. |
| NumberCoercion.NumeralThenLetterNotUnsigned | readme.ts:51 | A numeral followed by a letter other than `e` or `E` is no unsigned decimal literal. |
| NumberCoercion.DigitFreeIsNaN | readme.ts:51 | Without a digit, `Number` is NaN unless the token is blank or an infinity. |
| NumberCoercion.CommaIsNaN | readme.ts:51 | A string with a comma anywhere is NaN for `Number`. |
| NumberCoercion.ParseFloatAmount | readme.ts:59 | `parseFloat` of the captured amount is never infinite and never negative. |
| NumberCoercion.LeadingNumeralIsLongest | readme.ts:59 | No longer prefix than the one `parseFloat` reads is a numeral. |
| NumberCoercion.ParseFloatOfNumeral | readme.ts:59 | `parseFloat` of a whole numeral is its value. |
| NumberCoercion.ParseFloatStopsAtComma | readme.ts:59 | `parseFloat` of a numeral followed by a comma and more of the class is the numeral's value. |
| NumberCoercion.ParseFloatWithoutDigit | readme.ts:59 | `parseFloat` of an amount without a digit is NaN. |
| TimePattern.FindPattern | readme.ts:53 | The match of `/([0-9.,]+)([a-z]+)/i`: none exactly when no position matches. Otherwise it starts at the first position that matches, and both groups end where the greedy runs end. `TimePattern.FindPatternIsLeftmostGreedy` ties this to the spans the pattern accepts. |
| TimePattern.FirstMatchFrom | readme.ts:53 | The match found is the first position where the greedy amount run is followed by a letter. No earlier position matches, and the groups end where the greedy runs end. |
| TimePattern.FindPatternIsLeftmostGreedy | readme.ts:53 | A match exists exactly when some amount and unit spans exist. It is such a pair, no pair starts earlier, and at its start it has the only amount and the longest unit. |
| TimePattern.MatchesAtIffSpans | readme.ts:53 | The pattern matches at a position exactly when some amount and unit spans start there. |
| TimePattern.GreedyAmount | readme.ts:53 | At a given start, every accepted amount is the whole run, and every accepted unit is a prefix of the letter run. |
| Lexical.LowerAscii | readme.ts:67 | `toLowerCase` on the unit keeps its length. What it does to each character is stated by `Lexical.LowerAsciiLowers`, and that it folds case by `Lexical.LowerAsciiFolds`. |
| Lexical.LowerAsciiLowers | readme.ts:67 | Lower-casing turns each upper-case ASCII letter into its lower-case partner (32 code points on), leaves no upper-case letter, changes no other character, and keeps letters letters. |
| Lexical.LowerAsciiFolds | readme.ts:67 | Two strings that differ only in the case of ASCII letters lower-case to the same string. |
| Lexical.RunEnd | readme.ts:53 | A greedy run of a character class ends at the first character outside the class. |
| Results.Message | readme.ts:24-97 | The text of each thrown error: the three messages start with different letters, and the parse and unit messages carry the token or unit verbatim between a pair of double quotes that close the message. |
| Results.MessageDeterminesError | readme.ts:24-97 | The three error messages are distinct, and each carries its token or unit verbatim, so the message determines the error. |
| Cli.Start | readme.ts:23-27 | Fewer than two arguments give the no-command error. Otherwise the result is an error exactly when `parseTime` of the first argument fails, and it is the same error. A success carries `parseTime`'s value and the remaining arguments, at least one of them, unchanged. |
| Examples.BareSeconds | readme.ts:18 | `10` is 10000 ms: a bare number is a count of seconds. |
| Examples.SecondsWithUnit | readme.ts:19 | `10s` is 10000 ms. |
| Examples.MinutesWithUnit | readme.ts:20 | `2m` is 120000 ms. |
| Examples.CapitalUnit | readme.ts:84-89 | `5S` is 5000 ms, the same as `5s`. |
| Examples.Milliseconds | readme.ts:90-95 | `250ms` is 250 ms. |
| Examples.UnknownUnitReported | readme.ts:96-97 | `5xyz` fails with the unknown unit `xyz`. |
| Examples.WordRejected | readme.ts:55-57 | `abc` fails with the parse error quoting `abc`. |
| Examples.CommaAmount | readme.ts:53-59 | `1,5s` is 1000 ms, not 1500. |
| Examples.LeadingComma | readme.ts:59 | `,5s` is NaN. |
| Examples.MatchSkipsLeadingLetter | readme.ts:53 | `x5s` is 5000 ms: the match starts at the amount. |
| Examples.UnitStopsAtDigit | readme.ts:53 | `5s10` is 5000 ms: the unit ends before the `1`, and the rest is ignored. |

## Left out

- The repeat loop (readme.ts:29-31) and the `interval` generator (readme.ts:38-42) are not modelled. They are timers, an async generator and `Deno.run` process spawning, which are I/O with no computed result.
- `Deno.args` (readme.ts:23) is the parameter `argv` of `Cli.Start` rather than ambient input.
- A thrown `Error` is an `Err` value. How the exception ends the process is not modelled.
- `parseTime` accepts a `number` as well (readme.ts:50). The only caller passes a string, so the model takes strings only.
- Durations.ParseTime: finite results are exact rationals. Rounding to the nearest double, a long numeral overflowing to `Infinity`, a product with a unit multiplier overflowing to `Infinity` (a 305-digit amount with the unit `d` is finite, but times 86400000 it is `Infinity` in JavaScript and finite here), and negative zero are not modelled. This also applies to every member that states a finite value.
- Durations.Scale: the product is exact, so it is finite whenever the amount is. In JavaScript a finite amount times a unit multiplier can overflow to `Infinity`.
- NumberCoercion.ParseFloatAmount: models `parseFloat` only on what the amount group can capture (`[0-9.,]+`). There, white space, a sign, an exponent and `Infinity` cannot occur. General `parseFloat` is not part of this model.
- Strings are sequences of Unicode scalar values, not UTF-16 code units. Every character class used (white space, digits, ASCII letters) lies in the Basic Multilingual Plane, so the classification agrees.
- `toLowerCase` is modelled on ASCII only. The unit group can only hold ASCII letters (the `i` flag without `u` does not fold other letters into `[a-z]`), so the result is the same. The error message keeps the unit as written, as the source does.
- A negative or NaN interval passed to `setTimeout` is not modelled, since the timer is left out.
