/** Which panes show which limit, in terms of the phrases they contain. */
module LimitDetection {
  import opened Text
  import opened ResetClock

  ghost predicate MentionsAny(s: string, ps: seq<string>) { exists i :: 0 <= i < |ps| && Mentions(s, ps[i]) }

  const RATE_PHRASES: seq<string> := ["temporarily limiting requests", "rate limited"]

  const WINDOW_PHRASES: seq<string> :=
    ["usage limit", "hit your session limit", "limit reached", "limit will reset", "5-hour limit", "weekly limit",
     "out of usage"]

  /** A line of the pane with both the word and the code. */
  ghost predicate OverloadLine(line: string) { Mentions(line, "overloaded") && Mentions(line, "529") }

  lemma RateIff(s: string)
    ensures ShowsRateLimit(s) <==> MentionsAny(s, RATE_PHRASES)
  {
    hide Mentions, Contains;
    forall i | 0 <= i < |RATE_PHRASES| { ContainsIff(s, RATE_PHRASES[i]); }
    assert RATE_PHRASES[0] == "temporarily limiting requests" && RATE_PHRASES[1] == "rate limited";
  }

  lemma WindowIff(s: string)
    ensures ShowsUsageLimit(s) <==> MentionsAny(s, WINDOW_PHRASES)
  {
    hide Mentions, Contains;
    var ps := WINDOW_PHRASES;
    forall i | 0 <= i < |ps| { ContainsIff(s, ps[i]); }
    assert ps[0] == "usage limit" && ps[1] == "hit your session limit" && ps[2] == "limit reached";
    assert ps[3] == "limit will reset" && ps[4] == "5-hour limit" && ps[5] == "weekly limit" && ps[6] == "out of usage";
  }

  lemma OverloadIff(s: string)
    ensures ShowsOverload(s) <==> exists line :: line in Lines(s) && OverloadLine(line)
  {
    hide Mentions, Contains, Lines;
    forall line | line in Lines(s)
      ensures Contains(line, "overloaded") && Contains(line, "529") <==> OverloadLine(line)
    {
      ContainsIff(line, "overloaded");
      ContainsIff(line, "529");
    }
  }

  /** A pane shows a rate limit exactly when it contains one of the rate phrases; else a window limit
      exactly when it contains one of the window phrases; else an overload exactly when one of its
      lines has both the word and the code; else nothing. */
  lemma DetectedIff(lower: string, now: Instant, localOffset: int)
    ensures var signal := DetectLimit(lower, now, localOffset);
      if MentionsAny(lower, RATE_PHRASES) then signal == Some(RateLimited)
      else if MentionsAny(lower, WINDOW_PHRASES) then signal == Some(UsageLimited(ResetAt(lower, now, localOffset)))
      else if exists line :: line in Lines(lower) && OverloadLine(line) then signal == Some(Overloaded)
      else signal == None
  {
    RateIff(lower);
    WindowIff(lower);
    OverloadIff(lower);
    hide ShowsRateLimit, ShowsUsageLimit, ShowsOverload, ResetAt, Lines, OverloadLine, MentionsAny;
  }

  /** A line with both makes a pane without other phrases an overload, whatever surrounds it. */
  lemma OverloadLineShown(before: seq<string>, line: string, after: string, now: Instant, localOffset: int)
    requires AreLines(before) && IsLine(line) && OverloadLine(line)
    requires var pane := Unlines(before) + (line + "\n" + after);
      !MentionsAny(pane, RATE_PHRASES) && !MentionsAny(pane, WINDOW_PHRASES)
    ensures DetectLimit(Unlines(before) + (line + "\n" + after), now, localOffset) == Some(Overloaded)
  {
    var pane := Unlines(before) + (line + "\n" + after);
    hide MentionsAny, OverloadLine, Lines, DetectLimit, Unlines, IsLine;
    LinesOfUnlines(before, line + "\n" + after);
    LinesCons(line, after);
    assert line in [line] + Lines(after);
    assert line in Lines(pane);
    DetectedIff(pane, now, localOffset);
  }

  /** The word and the code on different lines only are no overload. */
  lemma ScatteredWordsShowNothing(lines: seq<string>, now: Instant, localOffset: int)
    requires AreLines(lines) && forall i :: 0 <= i < |lines| ==> !OverloadLine(lines[i])
    requires !MentionsAny(Unlines(lines), RATE_PHRASES) && !MentionsAny(Unlines(lines), WINDOW_PHRASES)
    ensures DetectLimit(Unlines(lines), now, localOffset) == None
  {
    hide MentionsAny, OverloadLine, DetectLimit, Unlines, IsLine;
    assert Lines("") == [];
    LinesOfUnlines(lines, "");
    AppendEmpty(Unlines(lines));
    AppendEmpty(lines);
    hide Lines;
    DetectedIff(Unlines(lines), now, localOffset);
  }

  lemma PhraseInside(before: string, p: string, after: string)
    ensures Mentions(before + (p + after), p)
  {
    var s := before + (p + after);
    PrefixAndRest(before, p + after);
    PrefixAndRest(p, after);
    assert StandsAt(s, p, |before|);
  }

  /** Each rate phrase is a rate limit and each window phrase a limit that is no overload, anywhere. */
  lemma PhraseShown(before: string, i: nat, after: string, now: Instant, localOffset: int)
    ensures i < |RATE_PHRASES| ==>
              DetectLimit(before + (RATE_PHRASES[i] + after), now, localOffset) == Some(RateLimited)
    ensures i < |WINDOW_PHRASES| ==>
              var signal := DetectLimit(before + (WINDOW_PHRASES[i] + after), now, localOffset);
              signal.Some? && !signal.value.Overloaded?
  {
    hide Mentions, DetectLimit, Lines, ResetAt, OverloadLine;
    if i < |RATE_PHRASES| {
      PhraseInside(before, RATE_PHRASES[i], after);
      assert MentionsAny(before + (RATE_PHRASES[i] + after), RATE_PHRASES);
      DetectedIff(before + (RATE_PHRASES[i] + after), now, localOffset);
    }
    if i < |WINDOW_PHRASES| {
      PhraseInside(before, WINDOW_PHRASES[i], after);
      assert MentionsAny(before + (WINDOW_PHRASES[i] + after), WINDOW_PHRASES);
      DetectedIff(before + (WINDOW_PHRASES[i] + after), now, localOffset);
    }
  }

  // ---------- The calendar day ----------

  /** Midnight is the one instant at a whole number of local days that starts the day of `now`. */
  lemma MidnightIff(m: Instant, now: Instant, offset: int)
    ensures m == Midnight(now, offset) <==>
            m <= now < m + 86_400 * 1_000_000_000 && exists d: int :: m == 86_400 * 1_000_000_000 * d - Seconds(offset)
  {
    MidnightBounds(now, offset);
    var day := (now + Seconds(offset)) / 86_400_000_000_000;
    assert Midnight(now, offset) == 86_400 * 1_000_000_000 * day - Seconds(offset);
    if m <= now < m + 86_400 * 1_000_000_000 && exists d: int :: m == 86_400 * 1_000_000_000 * d - Seconds(offset) {
      var d: int :| m == 86_400 * 1_000_000_000 * d - Seconds(offset);
      assert d == day;
    }
  }
}
