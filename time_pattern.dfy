/** The first match of the pattern `/([0-9.,]+)([a-z]+)/i` in a string, as
    `String.prototype.match` finds it: the leftmost start, then the greedy choice
    for each group. */
module TimePattern {
  import opened Lexical
  import opened Results

  /** Where each part of a match lies: the amount is `s[start..amountEnd]`, the unit
      `s[amountEnd..unitEnd]`. */
  datatype Match = Match(start: nat, amountEnd: nat, unitEnd: nat)

  /** `s[i..j]` is a non-empty run of `[0-9.,]` and `s[j..k]` a non-empty run of
      letters: the spans the pattern accepts, before any preference among them. */
  ghost predicate Spans(s: string, i: nat, j: nat, k: nat) {
    && i < j < k <= |s|
    && (forall p | i <= p < j :: IsNumeralChar(s[p]))
    && (forall p | j <= p < k :: IsAsciiLetter(s[p]))
  }

  /** The pattern matches starting at `i`: the greedy amount run from `i` is followed by a
      letter. Backtracking cannot help, since a shorter amount run ends before another
      `[0-9.,]` character, never before a letter. */
  predicate MatchesAt(s: string, i: nat) {
    && i < |s|
    && IsNumeralChar(s[i])
    && var e := RunEnd(s, i, Numerals);
       e < |s| && IsAsciiLetter(s[e])
  }

  /** The first match starting at `i` or later. */
  function FirstMatchFrom(s: string, i: nat): (m: Option<Match>)
    requires i <= |s|
    ensures m.None? ==> forall j | i <= j < |s| :: !MatchesAt(s, j)
    ensures m.Some? ==>
      && i <= m.value.start < m.value.amountEnd < m.value.unitEnd <= |s|
      && MatchesAt(s, m.value.start)
      && (forall j | i <= j < m.value.start :: !MatchesAt(s, j))
      && m.value.amountEnd == RunEnd(s, m.value.start, Numerals)
      && m.value.unitEnd == RunEnd(s, m.value.amountEnd, Letters)
    decreases |s| - i
  {
    if i == |s| then None
    else if MatchesAt(s, i) then
      var e := RunEnd(s, i, Numerals);
      Some(Match(i, e, RunEnd(s, e, Letters)))
    else FirstMatchFrom(s, i + 1)
  }

  /** The match of the pattern in `s`: the leftmost start, with greedy groups. */
  function FindPattern(s: string): (m: Option<Match>)
    ensures m.None? ==> forall j | 0 <= j < |s| :: !MatchesAt(s, j)
    ensures m.Some? ==>
      && MatchesAt(s, m.value.start)
      && (forall j | 0 <= j < m.value.start :: !MatchesAt(s, j))
      && m.value.amountEnd == RunEnd(s, m.value.start, Numerals)
      && m.value.unitEnd == RunEnd(s, m.value.amountEnd, Letters)
  {
    FirstMatchFrom(s, 0)
  }

  /** The pattern can match at `i` exactly when some spans start there. */
  lemma MatchesAtIffSpans(s: string, i: nat)
    ensures MatchesAt(s, i) <==> exists j: nat, k: nat :: Spans(s, i, j, k)
  {
    if MatchesAt(s, i) {
      var e := RunEnd(s, i, Numerals);
      assert Spans(s, i, e, e + 1);
    }
    if exists j: nat, k: nat :: Spans(s, i, j, k) {
      var j, k :| Spans(s, i, j, k);
      GreedyAmount(s, i, j, k);
    }
  }

  /** Every accepted amount starting at `i` is the whole run from `i`, and every
      accepted unit after it is a prefix of the whole letter run. */
  lemma GreedyAmount(s: string, i: nat, j: nat, k: nat)
    requires Spans(s, i, j, k)
    ensures j == RunEnd(s, i, Numerals) && k <= RunEnd(s, j, Letters)
  {
    assert !IsNumeralChar(s[j]);
    RunEndIs(s, i, j, Numerals);
    var f := RunEnd(s, j, Letters);
    assert f < |s| ==> !IsAsciiLetter(s[f]);
  }

  /** `FindPattern` answers as the regular expression does: it finds a match exactly
      when some spans exist; the match is a pair of spans; no spans start earlier; and
      of the spans at its start it has the only amount and the longest unit. */
  lemma FindPatternIsLeftmostGreedy(s: string)
    ensures FindPattern(s).Some? <==> exists i: nat, j: nat, k: nat :: Spans(s, i, j, k)
    ensures FindPattern(s).Some? ==>
      var m := FindPattern(s).value;
      && Spans(s, m.start, m.amountEnd, m.unitEnd)
      && forall i: nat, j: nat, k: nat | Spans(s, i, j, k) ::
           m.start < i || (m.start == i && j == m.amountEnd && k <= m.unitEnd)
  {
    var r := FindPattern(s);
    forall i: nat, j: nat, k: nat | Spans(s, i, j, k)
      ensures r.Some? && (r.value.start < i || (r.value.start == i && j == r.value.amountEnd && k <= r.value.unitEnd))
    {
      MatchesAtIffSpans(s, i);
      if r.Some? && r.value.start == i {
        GreedyAmount(s, i, j, k);
      }
    }
    if r.Some? {
      var m := r.value;
      MatchesAtIffSpans(s, m.start);
      assert Spans(s, m.start, m.amountEnd, m.unitEnd);
    }
  }

  /** Text without `[0-9.,]` before an amount is skipped: the first match starts at
      the amount. */
  lemma MatchAfterText(s: string, a: nat)
    requires MatchesAt(s, a)
    requires forall p | 0 <= p < a :: !IsNumeralChar(s[p])
    ensures FindPattern(s) == Some(Match(a, RunEnd(s, a, Numerals), RunEnd(s, RunEnd(s, a, Numerals), Letters)))
  {
  }
}
