/** Tokens worked through end to end: the usage lines of the tool's documentation and
    the edge cases of its parser. */
module Examples {
  import opened Lexical
  import opened Results
  import opened NumberCoercion
  import opened Durations

  /** `interval 10 …` repeats every ten seconds: a bare number is a count of seconds. */
  lemma BareSeconds()
    ensures ParseTime("10") == Ok(Finite(10_000.0))
  {
    assert NatToString(10) == "10";
    assert ParseTime(NatToString(10)) == Ok(Finite(10_000.0)) by {
      WholeSecondsRoundTrip(10);
    }
  }

  /** `interval 10s …` repeats every ten seconds. */
  lemma SecondsWithUnit()
    ensures ParseTime("10s") == Ok(Finite(10_000.0))
  {
    SecondUnit(Finite(10.0));
    assert NatToString(10) + "s" == "10s";
    WholeAmountWithUnit(10, "s", "10s");
  }

  /** `interval 2m …` repeats every two minutes. */
  lemma MinutesWithUnit()
    ensures ParseTime("2m") == Ok(Finite(120_000.0))
  {
    MinuteUnit(Finite(2.0));
    assert NatToString(2) + "m" == "2m";
    WholeAmountWithUnit(2, "m", "2m");
  }

  /** The unit is read in any case. */
  lemma CapitalUnit()
    ensures ParseTime("5S") == Ok(Finite(5_000.0))
  {
    SecondUnit(Finite(5.0));
    assert NatToString(5) + "S" == "5S";
    WholeAmountWithUnit(5, "S", "5S");
  }

  /** Milliseconds are returned as given. */
  lemma Milliseconds()
    ensures ParseTime("250ms") == Ok(Finite(250.0))
  {
    MillisecondUnit(Finite(250.0));
    assert NatToString(250) + "ms" == "250ms";
    WholeAmountWithUnit(250, "ms", "250ms");
  }

  /** An unknown unit is reported as written. */
  lemma UnknownUnitReported()
    ensures ParseTime("5xyz") == Err(UnknownUnit("xyz"))
  {
    assert LowerAscii("xyz") == "xyz";
    assert ApplyUnit(Finite(5.0), "xyz") == Err(UnknownUnit("xyz"));
    assert NatToString(5) + "xyz" == "5xyz";
    WholeAmountWithUnit(5, "xyz", "5xyz");
  }

  /** A word with no amount cannot be parsed. */
  lemma WordRejected()
    ensures ParseTime("abc") == Err(CouldNotParse("abc"))
  {
    WordFails("abc");
  }

  /** A comma ends the amount: "1,5s" is one second, not one and a half. */
  lemma CommaAmount()
    ensures ParseTime("1,5s") == Ok(Finite(1_000.0))
  {
    NatNumeral(1);
    assert NatToString(1) == "1";
    SecondUnit(Finite(1.0));
    assert "1" + ",5" + "s" == "1,5s";
    CommaCutsAmount("1", ",5", "s");
  }

  /** An amount that starts with a comma is not a number at all. */
  lemma LeadingComma()
    ensures ParseTime(",5s") == Ok(NaN)
  {
    SecondUnit(NaN);
    assert ",5" + "s" == ",5s";
    LeadingCommaGivesNaN(",5", "s");
  }

  /** The pattern is not anchored: a letter before the amount is skipped, and the match
      starts at the amount. */
  lemma MatchSkipsLeadingLetter()
    ensures ParseTime("x5s") == Ok(Finite(5_000.0))
  {
    SecondUnit(Finite(5.0));
    assert "x" + NatToString(5) + "s" == "x5s";
    WholeAmountAfterText("x", 5, "s", "x5s");
  }

  /** The unit ends where the letters end: what follows it is ignored. */
  lemma UnitStopsAtDigit()
    ensures ParseTime("5s10") == Ok(Finite(5_000.0))
  {
    SecondUnit(Finite(5.0));
    assert NatToString(5) + "s" + "10" == "5s10";
    WholeAmountUnitThenRest(5, "s", "10", "5s10");
  }
}
