/** Limit banners: classifying a pane, reading the stated reset clock and zone, and choosing the
    instant to wake. All text is the lowercased pane. */
module ResetClock {
  import opened Text

  // ---------- Instants ----------

  /** Nanoseconds since the Unix epoch (chrono's DateTime<Utc>). */
  type Instant = int

  function Seconds(n: int): Instant { n * 1_000_000_000 }

  function Days(n: int): Instant { n * 86_400_000_000_000 }

  const USAGE_BACKOFF_SECS := 1800
  const USAGE_POST_RESET_BUFFER_SECS := 300
  const OVERLOAD_BACKOFF_SECS := 240

  /** Midnight starting the calendar day that contains `now` in the zone `offset` seconds east. */
  function Midnight(now: Instant, offset: int): Instant
  {
    Days((now + Seconds(offset)) / 86_400_000_000_000) - Seconds(offset)
  }

  lemma MidnightBounds(now: Instant, offset: int)
    ensures Midnight(now, offset) <= now < Midnight(now, offset) + Days(1)
  {}

  /** FixedOffset::east_opt */
  function EastOpt(secs: int): Option<int> { if -86_400 < secs < 86_400 then Some(secs) else None }

  /** NaiveDate::and_hms_opt, as the offset of the clock time from midnight. */
  function ClockOpt(hour: nat, minute: nat): Option<int>
  {
    if hour < 24 && minute < 60 then Some(Seconds(hour * 3600 + minute * 60)) else None
  }

  // ---------- Digits ----------

  /** Number of leading digits, at most `max`. */
  function DigitRun(s: string, max: nat): (n: nat)
    ensures n <= max && n <= |s|
    ensures forall i :: 0 <= i < n ==> IsDigit(s[i])
    ensures n < max && n < |s| ==> !IsDigit(s[n])
  {
    if max == 0 || s == "" || !IsDigit(s[0]) then 0 else 1 + DigitRun(s[1..], max - 1)
  }

  // ---------- The clock ----------

  predicate NotDigit(c: char) { !IsDigit(c) }

  predicate IsMarkerNoise(c: char) { IsWhitespace(c) || c == '.' }

  function Without(s: string, drop: char -> bool): string
  {
    if s == "" then "" else (if drop(s[0]) then "" else [s[0]]) + Without(s[1..], drop)
  }

  function Take(s: string, n: nat): string { if |s| <= n then s else s[..n] }

  datatype Meridiem = Am | Pm | NoMeridiem

  /** The am/pm marker among the next six characters, spaces and dots removed. */
  function MeridiemAt(s: string): Meridiem
  {
    var marker := Without(Take(s, 6), IsMarkerNoise);
    if "pm" <= marker then Pm else if "am" <= marker then Am else NoMeridiem
  }

  predicate IsMeridiemLetter(c: char) { c == 'a' || c == 'p' || c == 'm' }

  /** The text after the am/pm letters (at most two) and the dots and spaces around them. */
  function SkipMeridiem(s: string, letters: nat): (r: string)
    ensures |r| <= |s| && r == s[|s| - |r|..]
  {
    if s == "" then s
    else if IsMeridiemLetter(s[0]) && letters < 2 then SkipMeridiem(s[1..], letters + 1)
    else if s[0] == '.' || s[0] == ' ' then SkipMeridiem(s[1..], letters)
    else s
  }

  function To24(hour: nat, m: Meridiem): nat
  {
    match m
    case Pm => if hour < 12 then hour + 12 else hour
    case Am => if hour == 12 then 0 else hour
    case NoMeridiem => hour
  }

  /** A clock time and the text that follows it. */
  datatype Clock = Clock(hour: nat, minute: nat, rest: string)

  /** The `:MM` part: the minute and the text after it; a colon without a digit is not consumed. */
  function MinuteAt(s: string): (nat, string)
  {
    if s != "" && s[0] == ':' && DigitRun(s[1..], 2) > 0 then
      var n := DigitRun(s[1..], 2);
      (Value(s[1..][..n]), s[1..][n..])
    else (0, s)
  }

  /** The clock named by a stated hour and minute, given the text after them. */
  function ClockOf(stated: nat, minute: nat, r: string): Option<Clock>
  {
    var m := MeridiemAt(r);
    var hour := To24(stated, m);
    var rest := if m.NoMeridiem? then r else SkipMeridiem(r, 0);
    if hour > 23 || minute > 59 then None else Some(Clock(hour, minute, rest))
  }

  function ClockIn(s: string): Option<Clock>
  {
    var d := DropWhile(s, NotDigit);
    if d == "" then None
    else
      var n := DigitRun(d, 2);
      var (minute, r) := MinuteAt(d[n..]);
      ClockOf(Value(d[..n]), minute, r)
  }

  // ---------- The zone ----------

  predicate IsZoneLead(c: char) { c == ' ' || c == '(' }

  predicate IsZoneTail(c: char) { c == ')' || c == ',' || c == '.' || c == ' ' }

  predicate IsSign(c: char) { c == '+' || c == '-' }

  function SignedOffset(s: string): Option<int>
  {
    if s == "" || !IsSign(s[0]) then None else OffsetAfter(s[0] == '+', s[1..])
  }

  function OffsetAfter(east: bool, rest: string): Option<int>
  {
    var n := DigitRun(rest, 2);
    if n == 0 then None
    else
      var hours := Value(rest[..n]);
      var minutes := OffsetMinutes(rest[n..]);
      if hours > 14 || minutes > 59 then None
      else
        var secs := hours * 3600 + minutes * 60;
        Some(if east then secs else -secs)
  }

  /** Minutes of an offset, after its hour: ":M", ":MM", or a bare "MM". */
  function OffsetMinutes(s: string): nat
  {
    if s != "" && s[0] == ':' then
      var mm := Without(Take(s[1..], 2), NotDigit);
      WithoutKeepsRest(Take(s[1..], 2), NotDigit);
      Value(mm)
    else if DigitRun(s, 2) == 2 then Value(s[..2])
    else 0
  }

  lemma WithoutKeepsRest(s: string, drop: char -> bool)
    ensures forall i :: 0 <= i < |Without(s, drop)| ==> !drop(Without(s, drop)[i])
    ensures |Without(s, drop)| <= |s|
  {}

  /** The offset after a "utc"/"gmt" name: signed, or zero when only closing punctuation follows. */
  function NamedZone(rest: string): Option<int>
  {
    if rest != "" && IsSign(rest[0]) then SignedOffset(rest)
    else if DropWhile(rest, IsZoneTail) == "" then Some(0)
    else None
  }

  function ZoneToken(t: string): Option<int>
  {
    if "utc" <= t || "gmt" <= t then NamedZone(TrimStart(t[3..]))
    else if t != "" && t[0] == 'z' then Some(0)
    else SignedOffset(t)
  }

  /** The zone stated at the start of `s`, after spaces and opening parentheses. */
  function ZoneOffset(s: string): Option<int> { ZoneToken(DropWhile(s, IsZoneLead)) }

  /** The clock stated after the first "reset". */
  function StatedClock(lower: string): Option<Clock>
  {
    match Find(lower, "reset")
    case None => None
    case Some(anchor) => FindSound(lower, "reset"); ClockIn(lower[anchor..])
  }

  /** The instant of a clock on today's date, in the stated zone or `localOffset`. */
  function ClockToday(hour: nat, minute: nat, stated: Option<int>, now: Instant, localOffset: int): Option<Instant>
  {
    var zone := if stated.Some? then EastOpt(stated.value) else Some(localOffset);
    var time := ClockOpt(hour, minute);
    if zone.None? || time.None? then None else Some(Midnight(now, zone.value) + time.value)
  }

  function ResetAt(lower: string, now: Instant, localOffset: int): Option<Instant>
  {
    match StatedClock(lower)
    case None => None
    case Some(c) => ClockToday(c.hour, c.minute, ZoneOffset(c.rest), now, localOffset)
  }

  function UsageWakeAt(reset: Option<Instant>, now: Instant): Instant
  {
    match reset
    case Some(r) =>
      var fire := r + Seconds(USAGE_POST_RESET_BUFFER_SECS);
      if fire <= now then fire + Days(1) else fire
    case None => now + Seconds(USAGE_BACKOFF_SECS)
  }

  // ---------- Classification ----------

  datatype LimitSignal = RateLimited | Overloaded | UsageLimited(resetAt: Option<Instant>)

  predicate ShowsRateLimit(lower: string)
  {
    Contains(lower, "temporarily limiting requests") || Contains(lower, "rate limited")
  }

  predicate ShowsUsageLimit(lower: string)
  {
    || Contains(lower, "usage limit")
    || Contains(lower, "hit your session limit")
    || Contains(lower, "limit reached")
    || Contains(lower, "limit will reset")
    || Contains(lower, "5-hour limit")
    || Contains(lower, "weekly limit")
    || Contains(lower, "out of usage")
  }

  predicate ShowsOverload(lower: string)
  {
    exists line :: line in Lines(lower) && Contains(line, "overloaded") && Contains(line, "529")
  }

  function DetectLimit(lower: string, now: Instant, localOffset: int): Option<LimitSignal>
  {
    if ShowsRateLimit(lower) then Some(RateLimited)
    else if ShowsUsageLimit(lower) then Some(UsageLimited(ResetAt(lower, now, localOffset)))
    else if ShowsOverload(lower) then Some(Overloaded)
    else None
  }

  /** When a detected limit is retried, given the policy's retry interval. */
  function FireAt(signal: LimitSignal, now: Instant, retrySecs: int): Instant
  {
    match signal
    case RateLimited => now + Seconds(if retrySecs < 1 then 1 else retrySecs)
    case Overloaded => now + Seconds(OVERLOAD_BACKOFF_SECS)
    case UsageLimited(reset) => UsageWakeAt(reset, now)
  }

  // ---------- The parsers as the source runs them ----------

  /** The end of the run of at most `max` digits that starts at `start`. */
  method ScanDigits(s: string, start: nat, max: nat) returns (i: nat)
    requires start <= |s|
    ensures start <= i <= |s|
    ensures i - start == DigitRun(s[start..], max)
    ensures s[start..i] == s[start..][..i - start] && AllDigits(s[start..i])
  {
    i := start;
    while i < |s| && IsDigit(s[i]) && i - start < max
      invariant start <= i <= |s| && i - start <= max
      invariant DigitRun(s[start..], max) == i - start + DigitRun(s[i..], max - (i - start))
    {
      assert s[i..][1..] == s[i + 1..];
      i := i + 1;
    }
  }

  method SkipToDigit(s: string) returns (i: nat)
    ensures i <= |s|
    ensures s[i..] == DropWhile(s, NotDigit)
  {
    i := 0;
    while i < |s| && !IsDigit(s[i])
      invariant 0 <= i <= |s|
      invariant DropWhile(s, NotDigit) == DropWhile(s[i..], NotDigit)
    {
      assert s[i..][1..] == s[i + 1..];
      i := i + 1;
    }
  }

  method ParseClockAfter(s: string) returns (r: Option<(nat, nat, nat)>)
    ensures r.Some? <==> ClockIn(s).Some?
    ensures r.Some? ==> r.value.2 <= |s|
    ensures r.Some? ==> ClockIn(s).value == Clock(r.value.0, r.value.1, s[r.value.2..])
  {
    hide ClockOf, MinuteAt;
    var i := SkipToDigit(s);
    ghost var d := DropWhile(s, NotDigit);
    if i >= |s| { return None; }

    var hStart := i;
    i := ScanDigits(s, hStart, 2);
    var hour := Value(s[hStart..i]);
    assert s[i..] == d[i - hStart..];

    var minute, j := ParseMinute(s, i);
    i := j;

    var clock := ReadMeridiem(s, hour, minute, i);
    return clock;
  }

  method ReadMeridiem(s: string, stated: nat, minute: nat, start: nat) returns (r: Option<(nat, nat, nat)>)
    requires start <= |s|
    ensures r.Some? <==> ClockOf(stated, minute, s[start..]).Some?
    ensures r.Some? ==> r.value.2 <= |s|
    ensures r.Some? ==> ClockOf(stated, minute, s[start..]).value == Clock(r.value.0, r.value.1, s[r.value.2..])
  {
    var hour, i := stated, start;
    var m := MeridiemAt(s[i..]);
    if m.Pm? {
      if hour < 12 { hour := hour + 12; }
      i := AdvancePastAmPm(s, i);
    } else if m.Am? {
      if hour == 12 { hour := 0; }
      i := AdvancePastAmPm(s, i);
    }
    if hour > 23 || minute > 59 { return None; }
    return Some((hour, minute, i));
  }

  method ParseMinute(s: string, start: nat) returns (minute: nat, i: nat)
    requires start <= |s|
    ensures start <= i <= |s|
    ensures MinuteAt(s[start..]) == (minute, s[i..])
  {
    minute, i := 0, start;
    if i < |s| && s[i] == ':' {
      var mStart := i + 1;
      assert s[start..][1..] == s[mStart..];
      var j := ScanDigits(s, mStart, 2);
      assert s[mStart..][j - mStart..] == s[j..];
      if j > mStart {
        minute := Value(s[mStart..j]);
        i := j;
      }
    }
  }

  lemma SkipStep(s: string, i: nat, letters: nat)
    requires i < |s|
    ensures SkipMeridiem(s[i..], letters) ==
            if IsMeridiemLetter(s[i]) && letters < 2 then SkipMeridiem(s[i + 1..], letters + 1)
            else if s[i] == '.' || s[i] == ' ' then SkipMeridiem(s[i + 1..], letters)
            else s[i..]
    ensures i + 1 == |s| ==> SkipMeridiem(s[i + 1..], letters) == SkipMeridiem(s[i + 1..], letters + 1) == s[i + 1..]
  {
    assert s[i..][1..] == s[i + 1..];
  }

  method AdvancePastAmPm(s: string, start: nat) returns (i: nat)
    requires start <= |s|
    ensures start <= i <= |s|
    ensures s[i..] == SkipMeridiem(s[start..], 0)
  {
    assert start == |s| ==> SkipMeridiem(s[start..], 0) == s[start..];
    hide SkipMeridiem;
    i := start;
    var letters: nat := 0;
    while i < |s|
      invariant start <= i <= |s|
      invariant SkipMeridiem(s[start..], 0) == SkipMeridiem(s[i..], letters)
      invariant i == |s| ==> SkipMeridiem(s[i..], letters) == s[i..]
    {
      SkipStep(s, i, letters);
      if IsMeridiemLetter(s[i]) && letters < 2 {
        letters := letters + 1;
        i := i + 1;
      } else if s[i] == '.' || s[i] == ' ' {
        i := i + 1;
      } else {
        break;
      }
    }
  }

  method ParseSignedOffset(s: string) returns (r: Option<int>)
    ensures r == SignedOffset(s)
  {
    if s == "" || !IsSign(s[0]) { return None; }
    var sign: int := if s[0] == '+' then 1 else -1;
    var rest := s[1..];
    var i := ScanDigits(rest, 0, 2);
    assert rest[0..] == rest && rest[0..i] == rest[..i];
    if i == 0 { return None; }
    var hours := Value(rest[..i]);
    var minutes := 0;
    if i < |rest| && rest[i] == ':' {
      assert rest[i..][1..] == rest[i + 1..];
      WithoutKeepsRest(Take(rest[i + 1..], 2), NotDigit);
      var mm := Without(Take(rest[i + 1..], 2), NotDigit);
      if mm != "" { minutes := Value(mm); }
    } else if i < |rest| && IsDigit(rest[i]) {
      if i + 1 < |rest| && IsDigit(rest[i + 1]) {
        assert rest[i..][..2] == rest[i..i + 2];
        minutes := Value(rest[i..i + 2]);
      }
    }
    assert minutes == OffsetMinutes(rest[i..]);
    if hours > 14 || minutes > 59 { return None; }
    return Some(sign * (hours * 3600 + minutes * 60));
  }
}
