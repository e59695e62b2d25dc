/** What the banner parsers and the wake-up arithmetic guarantee. */
module ResetClockProofs {
  import opened Text
  import opened ResetClock

  // ---------- Ranges: the date constructors never fail ----------

  lemma SignedOffsetInRange(s: string)
    ensures SignedOffset(s).Some? ==> -53_940 <= SignedOffset(s).value <= 53_940
  {}

  lemma NamedZoneInRange(rest: string)
    ensures NamedZone(rest).Some? ==> -53_940 <= NamedZone(rest).value <= 53_940
  {
    hide SignedOffset;
    SignedOffsetInRange(rest);
  }

  lemma ZoneOffsetInRange(s: string)
    ensures ZoneOffset(s).Some? ==> -53_940 <= ZoneOffset(s).value <= 53_940
  {
    hide SignedOffset, NamedZone, DropWhile, TrimStart;
    var t := DropWhile(s, IsZoneLead);
    SignedOffsetInRange(t);
    if "utc" <= t || "gmt" <= t { NamedZoneInRange(TrimStart(t[3..])); }
  }

  lemma StatedClockInRange(lower: string)
    ensures StatedClock(lower).Some? ==> StatedClock(lower).value.hour < 24 && StatedClock(lower).value.minute < 60
  {
    FindSound(lower, "reset");
  }

  function ZoneOr(stated: Option<int>, localOffset: int): int
  {
    if stated.Some? then stated.value else localOffset
  }

  lemma ClockTodayIsTotal(hour: nat, minute: nat, stated: Option<int>, now: Instant, localOffset: int)
    requires hour < 24 && minute < 60
    requires stated.Some? ==> -53_940 <= stated.value <= 53_940
    ensures ClockToday(hour, minute, stated, now, localOffset) ==
            Some(Midnight(now, ZoneOr(stated, localOffset)) + Seconds(hour * 3600 + minute * 60))
  {}

  /** No constructor rejects what the parsers accept: every stated clock names an instant. */
  lemma ResetAtIsTotal(lower: string, now: Instant, localOffset: int)
    requires StatedClock(lower).Some?
    ensures var c := StatedClock(lower).value;
      ResetAt(lower, now, localOffset) ==
      Some(Midnight(now, ZoneOr(ZoneOffset(c.rest), localOffset)) + Seconds(c.hour * 3600 + c.minute * 60))
  {
    hide StatedClock, ZoneOffset, Midnight;
    StatedClockInRange(lower);
    var c := StatedClock(lower).value;
    ZoneOffsetInRange(c.rest);
    ClockTodayIsTotal(c.hour, c.minute, ZoneOffset(c.rest), now, localOffset);
  }

  // ---------- The wake-up instant ----------

  /** `w` is the first of base, base + 1 day, base + 2 days, … strictly after `now`. */
  ghost predicate FirstAfter(w: Instant, base: Instant, now: Instant)
  {
    && w > now
    && (exists k: nat :: w == base + Days(k))
    && forall k: nat :: base + Days(k) > now ==> w <= base + Days(k)
  }

  /** The same over every day, past and future. */
  ghost predicate FirstAfterAllDays(w: Instant, base: Instant, now: Instant)
  {
    && w > now
    && (exists k: int :: w == base + Days(k))
    && forall k: int :: base + Days(k) > now ==> w <= base + Days(k)
  }

  lemma ResetIsToday(lower: string, now: Instant, localOffset: int)
    requires ResetAt(lower, now, localOffset).Some?
    ensures now - Days(1) < ResetAt(lower, now, localOffset).value <= now + Seconds(86_340)
  {
    StatedClockInRange(lower);
    var c := StatedClock(lower).value;
    ResetAtIsTotal(lower, now, localOffset);
    MidnightBounds(now, ZoneOr(ZoneOffset(c.rest), localOffset));
  }

  lemma WakeArithmetic(reset: Instant, now: Instant)
    requires now - Days(1) < reset <= now + Seconds(86_340)
    ensures FirstAfter(UsageWakeAt(Some(reset), now), reset + Seconds(300), now)
    ensures UsageWakeAt(Some(reset), now) <= now + Seconds(86_640)
  {
    var base := reset + Seconds(300);
    var d := if base <= now then 1 else 0;
    assert UsageWakeAt(Some(reset), now) == base + Days(d);
  }

  /** Whatever the pane says, the wake-up for a parsed reset is the first buffered reset from today
      on that is still ahead, at most 86640 seconds away. */
  lemma WakeIsFirstBufferedReset(lower: string, now: Instant, localOffset: int)
    requires ResetAt(lower, now, localOffset).Some?
    ensures var reset := ResetAt(lower, now, localOffset);
      var wake := UsageWakeAt(reset, now);
      && FirstAfter(wake, reset.value + Seconds(300), now)
      && wake <= now + Seconds(86_640)
  {
    ResetIsToday(lower, now, localOffset);
    WakeArithmetic(ResetAt(lower, now, localOffset).value, now);
  }

  lemma AllDaysArithmetic(reset: Instant, now: Instant)
    requires now - Days(1) < reset <= now + Seconds(86_340)
    ensures FirstAfterAllDays(UsageWakeAt(Some(reset), now), reset + Seconds(300), now) <==>
            reset + Seconds(300) - Days(1) <= now
  {
    var base := reset + Seconds(300);
    var d := if base <= now then 1 else 0;
    assert UsageWakeAt(Some(reset), now) == base + Days(d);
    assert base + Days(-1) == base - Days(1);
  }

  /** Counting past days too, the claim holds exactly when yesterday's buffered reset has passed. */
  lemma WakeIsFirstOverAllDaysIff(lower: string, now: Instant, localOffset: int)
    requires ResetAt(lower, now, localOffset).Some?
    ensures var reset := ResetAt(lower, now, localOffset);
      FirstAfterAllDays(UsageWakeAt(reset, now), reset.value + Seconds(300), now) <==>
      reset.value + Seconds(300) - Days(1) <= now
  {
    ResetIsToday(lower, now, localOffset);
    AllDaysArithmetic(ResetAt(lower, now, localOffset).value, now);
  }

  lemma FireArithmetic(signal: LimitSignal, now: Instant, retrySecs: int)
    requires signal.UsageLimited? && signal.resetAt.Some? ==> signal.resetAt.value > now - Days(1)
    ensures FireAt(signal, now, retrySecs) > now
  {}

  /** Every scheduled wake-up is strictly in the future, for every kind of limit. */
  lemma FireAtIsInTheFuture(lower: string, now: Instant, localOffset: int, retrySecs: int)
    requires DetectLimit(lower, now, localOffset).Some?
    ensures FireAt(DetectLimit(lower, now, localOffset).value, now, retrySecs) > now
  {
    hide ShowsRateLimit, ShowsUsageLimit, ShowsOverload, ResetAt, FireAt;
    if ResetAt(lower, now, localOffset).Some? {
      ResetIsToday(lower, now, localOffset);
    }
    FireArithmetic(DetectLimit(lower, now, localOffset).value, now, retrySecs);
  }

  // ---------- Rendering ----------

  function TwoDigits(n: nat): (s: string)
    requires n < 100
    ensures |s| == 2 && AllDigits(s) && Value(s) == n
  {
    ValueOfTwo(DigitChar(n / 10), DigitChar(n % 10));
    [DigitChar(n / 10), DigitChar(n % 10)]
  }

  /** How minutes are written: ":MM", ":M", or not at all on the hour. */
  datatype MinuteStyle = Full | Short | OnTheHour

  datatype ClockStyle =
    | TwentyFour(minutes: MinuteStyle)
    | Twelve(minutes: MinuteStyle, padded: bool, spaced: bool, dotted: bool)

  /** "+HH:MM", "+HH:M", "+HHMM", or whole hours as "+HH" or "+H". */
  datatype OffsetStyle = Colon | ColonShort | Compact | Hours(padded: bool)

  /** A zone after a space and possibly a parenthesis: an offset, bare or after "utc" or "gmt", or "z". */
  datatype ZoneStyle = Zulu(paren: bool) | Offset(paren: bool, name: string, gap: string, form: OffsetStyle)

  function Hour12(hour: nat): nat { if hour % 12 == 0 then 12 else hour % 12 }

  /** One digit where possible, or two. */
  function Digits(n: nat, padded: bool): (s: string)
    requires n < 100
    ensures 1 <= |s| <= 2 && AllDigits(s) && Value(s) == n
  {
    if padded || n >= 10 then TwoDigits(n) else ValueOfTwo(DigitChar(n), '0'); [DigitChar(n)]
  }

  function HourText(hour: nat, style: ClockStyle): (s: string)
    requires hour < 24
    ensures 1 <= |s| <= 2 && AllDigits(s)
    ensures Value(s) == if style.TwentyFour? then hour else Hour12(hour)
  {
    if style.TwentyFour? then TwoDigits(hour) else Digits(Hour12(hour), style.padded)
  }

  ghost predicate FitsMinutes(minute: nat, style: MinuteStyle)
  {
    minute < 60 && (style.Short? ==> minute < 10) && (style.OnTheHour? ==> minute == 0)
  }

  function MinuteText(minute: nat, style: MinuteStyle): string
    requires minute < 60
  {
    if style.OnTheHour? then "" else ":" + Digits(minute, style.Full?)
  }

  function MarkerText(hour: nat, style: ClockStyle): string
  {
    if style.TwentyFour? then ""
    else
      var dot := Dot(style.dotted);
      Gap(style.spaced) + ([Letter(hour)] + (dot + ("m" + dot)))
  }

  function Letter(hour: nat): char { if hour < 12 then 'a' else 'p' }

  function Dot(dotted: bool): string { if dotted then "." else "" }

  function Gap(spaced: bool): string { if spaced then " " else "" }

  function Abs(x: int): nat { if x < 0 then -x else x }

  ghost predicate FitsOffset(minutes: int, form: OffsetStyle, after: string)
  {
    && Abs(minutes) < 900
    && (form.Hours? ==> Abs(minutes) % 60 == 0 && (after == "" || (after[0] != ':' && !IsDigit(after[0]))))
    && (form.ColonShort? ==> Abs(minutes) % 60 < 10 && (after == "" || !IsDigit(after[0])))
  }

  function OffsetText(minutes: int, form: OffsetStyle): string
    requires Abs(minutes) < 900
  {
    [Sign(minutes)] + OffsetDigits(Abs(minutes) / 60, Abs(minutes) % 60, form)
  }

  function Sign(minutes: int): char { if minutes < 0 then '-' else '+' }

  function OffsetDigits(h: nat, m: nat, form: OffsetStyle): string
    requires h < 100 && m < 60
  {
    match form
    case Colon => TwoDigits(h) + (":" + TwoDigits(m))
    case ColonShort => TwoDigits(h) + (":" + Digits(m, false))
    case Compact => TwoDigits(h) + TwoDigits(m)
    case Hours(padded) => Digits(h, padded)
  }

  /** The text after the zone. */
  function After(style: ZoneStyle, suffix: string): string { if style.paren then ")" + suffix else suffix }

  ghost predicate FitsZone(minutes: int, style: ZoneStyle, suffix: string)
  {
    && Abs(minutes) < 900
    && (style.Zulu? ==> minutes == 0)
    && (style.Offset? ==>
          && (style.name == "utc" || style.name == "gmt" || (style.name == "" && style.gap == ""))
          && (forall i :: 0 <= i < |style.gap| ==> IsWhitespace(style.gap[i]))
          && FitsOffset(minutes, style.form, After(style, suffix)))
  }

  function ZoneName(minutes: int, style: ZoneStyle, suffix: string): string
    requires Abs(minutes) < 900
  {
    match style
    case Zulu(_) => "z" + After(style, suffix)
    case Offset(_, name, gap, form) => name + (gap + (OffsetText(minutes, form) + After(style, suffix)))
  }

  function ZoneText(minutes: int, style: ZoneStyle, suffix: string): string
    requires Abs(minutes) < 900
  {
    (if style.paren then " (" else " ") + ZoneName(minutes, style, suffix)
  }

  /** A clock followed by the text `z`. */
  function ClockText(hour: nat, minute: nat, style: ClockStyle, z: string): string
    requires hour < 24 && minute < 60
  {
    HourText(hour, style) + (MinuteText(minute, style.minutes) + (MarkerText(hour, style) + z))
  }

  function Banner(prefix: string, filler: string, hour: nat, minute: nat, clock: ClockStyle,
                  zone: int, zoneStyle: ZoneStyle, suffix: string): string
    requires hour < 24 && minute < 60 && Abs(zone) < 900
  {
    prefix + ("reset" + (filler + ClockText(hour, minute, clock, ZoneText(zone, zoneStyle, suffix))))
  }

  // ---------- Parsing what was rendered ----------

  lemma NoEarlierReset(prefix: string, rest: string)
    requires prefix != "" && !Contains(prefix, "reset")
    ensures !("reset" <= prefix + ("reset" + rest))
  {
    var s := prefix + ("reset" + rest);
    assert s[|prefix|] == 'r';
    assert |prefix| >= 5 ==> s[..5] == prefix[..5];
  }

  lemma {:induction false} FindFirstReset(prefix: string, rest: string)
    requires !Contains(prefix, "reset")
    ensures Find(prefix + ("reset" + rest), "reset") == Some(|prefix|)
  {
    var s := prefix + ("reset" + rest);
    if prefix == "" {
      assert s == "reset" + rest;
    } else {
      NoEarlierReset(prefix, rest);
      assert s[1..] == prefix[1..] + ("reset" + rest);
      FindFirstReset(prefix[1..], rest);
    }
  }

  lemma DigitRunOf(ds: string, rest: string)
    requires 1 <= |ds| <= 2 && AllDigits(ds)
    requires |ds| == 2 || rest == "" || !IsDigit(rest[0])
    ensures DigitRun(ds + rest, 2) == |ds|
    ensures (ds + rest)[..|ds|] == ds && (ds + rest)[|ds|..] == rest
  {
    var s := ds + rest;
    assert s[0] == ds[0];
    if |ds| == 2 { assert s[1] == ds[1]; }
    if |ds| == 1 && rest != "" { assert s[1] == rest[0]; }
  }

  /** Where the text after an hour's digits or a minute's can go on: no digit and no colon. */
  ghost predicate NoMoreClock(r: string) { r == "" || (r[0] != ':' && !IsDigit(r[0])) }

  lemma MinuteOf(minute: nat, style: MinuteStyle, rest: string)
    requires FitsMinutes(minute, style) && NoMoreClock(rest)
    ensures MinuteAt(MinuteText(minute, style) + rest) == (minute, rest)
  {
    if style.OnTheHour? {
      AppendEmpty(rest);
    } else {
      var ds := Digits(minute, style.Full?);
      var s := MinuteText(minute, style) + rest;
      AppendHead(":" + ds, rest);
      assert (":" + ds)[1..] == ds;
      assert s[0] == ':' && s[1..] == ds + rest;
      DigitRunOf(ds, rest);
    }
  }

  lemma WithoutOne(c: char, y: string, drop: char -> bool)
    ensures Without([c] + y, drop) == (if drop(c) then "" else [c]) + Without(y, drop)
  {
    AppendHead([c], y);
    AppendEmpty(y);
  }

  lemma {:induction false} WithoutAppend(x: string, y: string, drop: char -> bool)
    ensures Without(x + y, drop) == Without(x, drop) + Without(y, drop)
  {
    if x == "" {
      AppendEmpty(y);
      AppendEmpty(Without(y, drop));
    } else {
      hide Without;
      AppendHead(x, y);
      var own := if drop(x[0]) then "" else [x[0]];
      WithoutOne(x[0], x[1..] + y, drop);
      WithoutOne(x[0], x[1..], drop);
      WithoutAppend(x[1..], y, drop);
      AppendAssoc(own, Without(x[1..], drop), Without(y, drop));
    }
  }

  /** What may start a zone after the space: nothing that reads as a marker. */
  ghost predicate StartsZone(z: string)
  {
    |z| >= 2 && z[0] == ' ' && !IsMarkerNoise(z[1]) && z[1] != 'a' && z[1] != 'p'
  }

  /** The text ends with the clock, or a zone follows. */
  ghost predicate EndsClock(z: string) { z == "" || StartsZone(z) }

  /** What a marker leaves of the text after it. */
  function AfterSpace(z: string): string { if z == "" then "" else z[1..] }

  lemma NoMarkerAtEnd()
    ensures MeridiemAt("") == NoMeridiem && SkipMeridiem("", 2) == ""
  {
    WithoutNone();
    hide Without;
    assert Take("", 6) == "";
  }

  lemma NoZoneAtEnd()
    ensures ZoneOffset("") == None
  {
    hide NamedZone, OffsetAfter;
    DropWhileStops("", IsZoneLead);
    assert !("utc" <= "") && !("gmt" <= "");
  }

  lemma NoMarkerOf(z: string)
    requires StartsZone(z)
    ensures MeridiemAt(z) == NoMeridiem
  {
    var t := Take(z, 6);
    assert t == [' '] + ([z[1]] + t[2..]);
    WithoutOne(' ', [z[1]] + t[2..], IsMarkerNoise);
    WithoutOne(z[1], t[2..], IsMarkerNoise);
    assert Without(t, IsMarkerNoise)[0] == z[1];
  }

  lemma NoiseDropped(n: string, y: string)
    requires n == "" || n == "." || n == " "
    ensures Without(n + y, IsMarkerNoise) == Without(y, IsMarkerNoise)
  {
    if n == "" {
      AppendEmpty(y);
    } else {
      assert n == [n[0]];
      WithoutOne(n[0], y, IsMarkerNoise);
      AppendEmpty(Without(y, IsMarkerNoise));
    }
  }

  lemma MarkerLetters(c: char, gap: string, dot: string)
    requires c == 'a' || c == 'p'
    requires (gap == "" || gap == " ") && (dot == "" || dot == ".")
    ensures Without(gap + ([c] + (dot + ("m" + dot))), IsMarkerNoise) == [c, 'm']
  {
    hide Without;
    var tail := ['m'] + dot;
    NoiseDropped(dot, "");
    AppendEmpty(dot);
    WithoutNone();
    WithoutOne('m', dot, IsMarkerNoise);
    AppendEmpty(['m']);
    NoiseDropped(dot, tail);
    WithoutOne(c, dot + tail, IsMarkerNoise);
    NoiseDropped(gap, [c] + (dot + tail));
    assert [c] + ['m'] == [c, 'm'];
  }

  lemma WithoutNone()
    ensures Without("", IsMarkerNoise) == ""
  {}

  lemma MarkerOf(hour: nat, style: ClockStyle, z: string)
    requires style.Twelve?
    ensures MeridiemAt(MarkerText(hour, style) + z) == (if hour < 12 then Am else Pm)
  {
    var marker := MarkerText(hour, style);
    MarkerLetters(Letter(hour), Gap(style.spaced), Dot(style.dotted));
    var t := Take(marker + z, 6);
    var k := Take(z, 6 - |marker|);
    assert t == marker + k;
    WithoutAppend(marker, k, IsMarkerNoise);
    hide Without;
    var w := Without(t, IsMarkerNoise);
    assert w[0] == Letter(hour) && w[1] == 'm';
  }

  lemma SkipOne(c: char, y: string, letters: nat)
    ensures SkipMeridiem([c] + y, letters) ==
            if IsMeridiemLetter(c) && letters < 2 then SkipMeridiem(y, letters + 1)
            else if c == '.' || c == ' ' then SkipMeridiem(y, letters)
            else [c] + y
  {
    AppendHead([c], y);
    AppendEmpty(y);
  }

  lemma SkipNoise(n: string, y: string, letters: nat)
    requires IsNoise(n)
    ensures SkipMeridiem(n + y, letters) == SkipMeridiem(y, letters)
  {
    if n == "" {
      AppendEmpty(y);
    } else {
      assert n == [n[0]];
      hide SkipMeridiem;
      SkipOne(n[0], y, letters);
    }
  }

  lemma SkipLetter(c: char, y: string, letters: nat)
    requires IsMeridiemLetter(c) && letters < 2
    ensures SkipMeridiem([c] + y, letters) == SkipMeridiem(y, letters + 1)
  {
    hide SkipMeridiem;
    SkipOne(c, y, letters);
  }

  ghost predicate IsNoise(n: string) { n == "" || n == "." || n == " " }

  lemma LettersSkipped(c: char, gap: string, dot: string, z: string)
    requires (c == 'a' || c == 'p') && IsNoise(gap) && IsNoise(dot)
    ensures SkipMeridiem(gap + ([c] + (dot + (['m'] + (dot + z)))), 0) == SkipMeridiem(z, 2)
  {
    hide SkipMeridiem, IsNoise;
    var afterM := dot + z;
    var afterC := dot + (['m'] + afterM);
    SkipNoise(gap, [c] + afterC, 0);
    SkipLetter(c, afterC, 0);
    SkipNoise(dot, ['m'] + afterM, 1);
    SkipLetter('m', afterM, 1);
    SkipNoise(dot, z, 2);
  }

  lemma ZoneNotSkipped(z: string)
    requires StartsZone(z)
    ensures SkipMeridiem(z, 2) == z[1..]
  {
    hide SkipMeridiem;
    assert z == [' '] + z[1..] && z[1..] == [z[1]] + z[2..];
    SkipOne(' ', z[1..], 2);
    SkipOne(z[1], z[2..], 2);
  }

  lemma MarkerSkipped(hour: nat, style: ClockStyle, z: string)
    requires style.Twelve? && EndsClock(z)
    ensures SkipMeridiem(MarkerText(hour, style) + z, 0) == AfterSpace(z)
  {
    hide SkipMeridiem, StartsZone;
    var gap, dot, c := Gap(style.spaced), Dot(style.dotted), Letter(hour);
    AppendAssoc(gap, [c] + (dot + ("m" + dot)), z);
    AppendAssoc([c], dot + ("m" + dot), z);
    AppendAssoc(dot, "m" + dot, z);
    AppendAssoc("m", dot, z);
    LettersSkipped(c, gap, dot, z);
    if z == "" { NoMarkerAtEnd(); } else { ZoneNotSkipped(z); }
  }

  // ---------- Offsets and zones ----------

  lemma TwoDigitsStay(m: nat, rest: string)
    requires m < 100
    ensures Without(Take(TwoDigits(m) + rest, 2), NotDigit) == TwoDigits(m)
  {
    var mm := TwoDigits(m);
    assert Take(mm + rest, 2) == mm && mm == [mm[0]] + [mm[1]];
    WithoutOne(mm[0], [mm[1]], NotDigit);
    WithoutOne(mm[1], "", NotDigit);
    AppendEmpty([mm[1]]);
  }

  /** The minutes after an offset's hours, in each notation. */
  lemma OffsetMinutesOf(m: nat, rest: string)
    requires m < 60
    ensures OffsetMinutes(":" + TwoDigits(m) + rest) == m
    ensures OffsetMinutes(TwoDigits(m) + rest) == m
    ensures NoMoreClock(rest) ==> OffsetMinutes(rest) == 0
  {
    var s := ":" + TwoDigits(m) + rest;
    assert s[0] == ':' && s[1..] == TwoDigits(m) + rest;
    TwoDigitsStay(m, rest);
    DigitRunOf(TwoDigits(m), rest);
    assert (TwoDigits(m) + rest)[0] == TwoDigits(m)[0];
  }

  lemma ShortMinutesOf(m: nat, rest: string)
    requires m < 10 && (rest == "" || !IsDigit(rest[0]))
    ensures OffsetMinutes(":" + Digits(m, false) + rest) == m
  {
    var ds := Digits(m, false);
    var s := ":" + ds + rest;
    assert s[0] == ':' && s[1..] == ds + rest && ds == [ds[0]];
    var two := Take(ds + rest, 2);
    var tail := Take(rest, 1);
    assert two == [ds[0]] + tail;
    WithoutOne(ds[0], tail, NotDigit);
    if rest != "" {
      assert tail == [rest[0]] + "";
      WithoutOne(rest[0], "", NotDigit);
    }
    assert Without("", NotDigit) == "";
    AppendEmpty([ds[0]]);
    assert Without(two, NotDigit) == ds;
  }

  lemma SignedOf(sign: char, h: string, tail: string, m: nat)
    requires IsSign(sign) && 1 <= |h| <= 2 && AllDigits(h) && Value(h) <= 14 && m < 60
    requires |h| == 2 || tail == "" || !IsDigit(tail[0])
    requires OffsetMinutes(tail) == m
    ensures SignedOffset([sign] + (h + tail)) ==
            Some(if sign == '+' then Value(h) * 3600 + m * 60 else -(Value(h) * 3600 + m * 60))
  {
    hide OffsetMinutes, DigitRun, Value, OffsetAfter;
    AfterOf(sign == '+', h, tail, m);
    var s := [sign] + (h + tail);
    assert s[0] == sign && s[1..] == h + tail;
  }

  lemma AfterOf(east: bool, h: string, tail: string, m: nat)
    requires 1 <= |h| <= 2 && AllDigits(h) && Value(h) <= 14 && m < 60
    requires |h| == 2 || tail == "" || !IsDigit(tail[0])
    requires OffsetMinutes(tail) == m
    ensures OffsetAfter(east, h + tail) ==
            Some(if east then Value(h) * 3600 + m * 60 else -(Value(h) * 3600 + m * 60))
  {
    hide OffsetMinutes, DigitRun, Value;
    DigitRunOf(h, tail);
  }

  lemma OffsetIs(zone: int, h: string, tail: string)
    requires Abs(zone) < 900 && 1 <= |h| <= 2 && AllDigits(h) && Value(h) == Abs(zone) / 60
    requires |h| == 2 || tail == "" || !IsDigit(tail[0])
    requires OffsetMinutes(tail) == Abs(zone) % 60
    ensures SignedOffset([Sign(zone)] + (h + tail)) == Some(zone * 60)
  {
    hide OffsetMinutes, SignedOffset, Value;
    SignedOf(Sign(zone), h, tail, Abs(zone) % 60);
  }

  lemma OffsetOf(zone: int, form: OffsetStyle, after: string)
    requires FitsOffset(zone, form, after)
    ensures SignedOffset(OffsetText(zone, form) + after) == Some(zone * 60)
  {
    hide SignedOffset, OffsetMinutes, Value, AllDigits;
    var h, m := Abs(zone) / 60, Abs(zone) % 60;
    AppendAssoc([Sign(zone)], OffsetDigits(h, m, form), after);
    match form
    case Colon =>
      OffsetMinutesOf(m, after);
      AppendAssoc(TwoDigits(h), ":" + TwoDigits(m), after);
      OffsetIs(zone, TwoDigits(h), ":" + TwoDigits(m) + after);
    case ColonShort =>
      ShortMinutesOf(m, after);
      AppendAssoc(TwoDigits(h), ":" + Digits(m, false), after);
      OffsetIs(zone, TwoDigits(h), ":" + Digits(m, false) + after);
    case Compact =>
      OffsetMinutesOf(m, after);
      AppendAssoc(TwoDigits(h), TwoDigits(m), after);
      OffsetIs(zone, TwoDigits(h), TwoDigits(m) + after);
    case Hours(padded) =>
      OffsetMinutesOf(0, after);
      OffsetIs(zone, Digits(h, padded), after);
  }

  lemma OffsetStarts(zone: int, form: OffsetStyle, after: string)
    requires Abs(zone) < 900
    ensures var s := OffsetText(zone, form) + after; s != "" && IsSign(s[0]) && !IsWhitespace(s[0]) && s[0] != 'z'
  {}

  lemma BareOffsetToken(t: string)
    requires t != "" && IsSign(t[0])
    ensures ZoneToken(t) == SignedOffset(t)
  {
    assert !("utc" <= t) && !("gmt" <= t);
  }

  /** A zone token: it starts with nothing that the marker or the space before it could swallow. */
  ghost predicate IsToken(t: string)
  {
    t != "" && !IsMarkerNoise(t[0]) && t[0] != 'a' && t[0] != 'p' && !IsZoneLead(t[0])
  }

  lemma ZuluToken(after: string)
    ensures ZoneToken("z" + after) == Some(0) && IsToken("z" + after)
  {
    var t := "z" + after;
    assert t[0] == 'z';
    assert !("utc" <= t) && !("gmt" <= t);
  }

  lemma BareToken(s: string)
    requires s != "" && IsSign(s[0])
    ensures ZoneToken(s) == SignedOffset(s) && IsToken(s)
  {
    BareOffsetToken(s);
    hide ZoneToken, SignedOffset;
  }

  lemma LetterToken(name: string, rest: string)
    requires name == "utc" || name == "gmt"
    ensures IsToken(name + rest)
  {
    assert name[0] == 'u' || name[0] == 'g';
    assert (name + rest)[0] == name[0];
  }

  lemma SignNotSpace(s: string)
    requires s != "" && IsSign(s[0])
    ensures !IsWhitespace(s[0])
  {}

  lemma OffsetToken(name: string, gap: string, s: string)
    requires name == "utc" || name == "gmt"
    requires forall i :: 0 <= i < |gap| ==> IsWhitespace(gap[i])
    requires s != "" && IsSign(s[0])
    ensures ZoneToken(name + (gap + s)) == SignedOffset(s) && IsToken(name + (gap + s))
  {
    LetterToken(name, gap + s);
    NamedToken(name, gap + s);
    SignNotSpace(s);
    hide ZoneToken, SignedOffset, IsToken, IsWhitespace;
    DropWhilePrefix(gap, s, IsWhitespace);
  }

  /** Each notation of a zone is read as its offset. */
  lemma ZoneNameOf(zone: int, style: ZoneStyle, suffix: string)
    requires FitsZone(zone, style, suffix)
    ensures ZoneToken(ZoneName(zone, style, suffix)) == Some(zone * 60) && IsToken(ZoneName(zone, style, suffix))
  {
    hide ZoneToken, SignedOffset, OffsetText, IsToken, FitsOffset, IsWhitespace;
    if style.Zulu? {
      ZuluToken(After(style, suffix));
    } else {
      var s := OffsetText(zone, style.form) + After(style, suffix);
      OffsetOf(zone, style.form, After(style, suffix));
      OffsetStarts(zone, style.form, After(style, suffix));
      if style.name == "" {
        AppendEmpty(s);
        BareToken(s);
      } else {
        OffsetToken(style.name, style.gap, s);
      }
    }
  }

  lemma TokenAfter(open: string, t: string)
    requires (open == " (" || open == " ") && IsToken(t)
    ensures ZoneOffset(open + t) == ZoneToken(t) && ZoneOffset((open + t)[1..]) == ZoneToken(t)
    ensures StartsZone(open + t)
  {
    hide ZoneToken;
    AppendHead(open, t);
    DropWhilePrefix(open, t, IsZoneLead);
    DropWhilePrefix(open[1..], t, IsZoneLead);
    assert open == " (" ==> (open + t)[1] == '(';
    assert open == " " ==> (open + t)[1] == t[0];
  }

  /** The zone is read back whether or not the space before it was consumed by the marker. */
  lemma ZoneTextOf(zone: int, style: ZoneStyle, suffix: string)
    requires FitsZone(zone, style, suffix)
    ensures ZoneOffset(ZoneText(zone, style, suffix)) == Some(zone * 60)
    ensures ZoneOffset(ZoneText(zone, style, suffix)[1..]) == Some(zone * 60)
    ensures StartsZone(ZoneText(zone, style, suffix))
  {
    ZoneNameOf(zone, style, suffix);
    assert Abs(zone) < 900;
    hide ZoneToken, ZoneName, FitsZone, ZoneOffset, StartsZone, IsToken;
    TokenAfter(if style.paren then " (" else " ", ZoneName(zone, style, suffix));
  }

  lemma ClockInParts(lead: string, h: string, minute: nat, style: MinuteStyle, r: string)
    requires forall i :: 0 <= i < |lead| ==> NotDigit(lead[i])
    requires 1 <= |h| <= 2 && AllDigits(h) && FitsMinutes(minute, style) && NoMoreClock(r)
    ensures ClockIn(lead + (h + (MinuteText(minute, style) + r))) == ClockOf(Value(h), minute, r)
  {
    var tail := MinuteText(minute, style) + r;
    var d := h + tail;
    MinuteOf(minute, style, r);
    assert tail == "" || !IsDigit(tail[0]) by { if style.OnTheHour? { AppendEmpty(r); } }
    hide MinuteText, MinuteAt, ClockOf, Value;
    AppendHead(h, tail);
    DropWhilePrefix(lead, d, NotDigit);
    DigitRunOf(h, tail);
  }

  lemma ClockOfBanner(hour: nat, minute: nat, style: ClockStyle, z: string)
    requires hour < 24 && minute < 60 && EndsClock(z)
    ensures ClockOf(Value(HourText(hour, style)), minute, MarkerText(hour, style) + z) ==
            Some(Clock(hour, minute, if style.TwentyFour? then z else AfterSpace(z)))
    ensures NoMoreClock(MarkerText(hour, style) + z)
  {
    hide MeridiemAt, SkipMeridiem, HourText, To24, Value, AllDigits;
    To24Of(hour);
    if style.TwentyFour? {
      AppendEmpty(z);
      if z == "" { NoMarkerAtEnd(); } else { NoMarkerOf(z); }
    } else {
      MarkerOf(hour, style, z);
      MarkerSkipped(hour, style, z);
      MarkerIsNoClock(hour, style, z);
    }
  }

  lemma To24Of(hour: nat)
    requires hour < 24
    ensures To24(Hour12(hour), if hour < 12 then Am else Pm) == hour && To24(hour, NoMeridiem) == hour
  {}

  /** A marker never changes the position on the clock face; an afternoon hour is at least twelve, a
      morning one before it unless it was written past noon already. */
  lemma To24Means(hour: nat, m: Meridiem)
    ensures To24(hour, m) % 12 == hour % 12
    ensures m == Pm ==> To24(hour, m) >= 12
    ensures hour > 12 || m == NoMeridiem ==> To24(hour, m) == hour
    ensures m == Am && hour <= 12 ==> To24(hour, m) < 12
    ensures m == Pm && hour <= 12 ==> To24(hour, m) < 24
  {}

  lemma MarkerIsNoClock(hour: nat, style: ClockStyle, z: string)
    requires style.Twelve?
    ensures NoMoreClock(MarkerText(hour, style) + z)
  {
    var m := MarkerText(hour, style);
    assert m[0] == (if style.spaced then ' ' else Letter(hour));
    assert (m + z)[0] == m[0];
  }

  lemma StatedClockOfBanner(prefix: string, filler: string, hour: nat, minute: nat, style: ClockStyle, z: string)
    requires hour < 24 && FitsMinutes(minute, style.minutes) && EndsClock(z)
    requires !Contains(prefix, "reset")
    requires forall i :: 0 <= i < |filler| ==> NotDigit(filler[i])
    ensures StatedClock(prefix + ("reset" + (filler + ClockText(hour, minute, style, z)))) ==
            Some(Clock(hour, minute, if style.TwentyFour? then z else AfterSpace(z)))
  {
    hide ClockIn, ClockOf, Find, EndsClock, NoMoreClock;
    var h := HourText(hour, style);
    var r := MarkerText(hour, style) + z;
    var d := ClockText(hour, minute, style, z);
    FindFirstReset(prefix, filler + d);
    PrefixAndRest(prefix, "reset" + (filler + d));
    AppendAssoc("reset", filler, d);
    ClockOfBanner(hour, minute, style, z);
    ClockInParts("reset" + filler, h, minute, style.minutes, r);
  }

  /** Reading a rendered banner gives exactly the stated instant, whatever the local zone: in every
      notation of clock and zone, any text may follow, any text without "reset" may precede, any
      digit-free words may sit between. */
  lemma BannerRoundTrip(prefix: string, filler: string, hour: nat, minute: nat, clock: ClockStyle,
                        zone: int, zoneStyle: ZoneStyle, suffix: string, now: Instant, localOffset: int)
    requires hour < 24 && FitsMinutes(minute, clock.minutes) && FitsZone(zone, zoneStyle, suffix)
    requires !Contains(prefix, "reset")
    requires forall i :: 0 <= i < |filler| ==> NotDigit(filler[i])
    ensures ResetAt(Banner(prefix, filler, hour, minute, clock, zone, zoneStyle, suffix), now, localOffset) ==
            Some(Midnight(now, zone * 60) + Seconds(hour * 3600 + minute * 60))
  {
    hide StatedClock, ZoneOffset, Midnight, ClockText, ClockToday, ZoneText, StartsZone;
    var z := ZoneText(zone, zoneStyle, suffix);
    ZoneTextOf(zone, zoneStyle, suffix);
    StatedClockOfBanner(prefix, filler, hour, minute, clock, z);
    ClockTodayIsTotal(hour, minute, Some(zone * 60), now, localOffset);
  }

  /** Without a zone the same clock is read in the local one. */
  lemma BareBannerRoundTrip(prefix: string, filler: string, hour: nat, minute: nat, clock: ClockStyle,
                            now: Instant, localOffset: int)
    requires hour < 24 && FitsMinutes(minute, clock.minutes) && !Contains(prefix, "reset")
    requires forall i :: 0 <= i < |filler| ==> NotDigit(filler[i])
    ensures ResetAt(prefix + ("reset" + (filler + ClockText(hour, minute, clock, ""))), now, localOffset) ==
            Some(Midnight(now, localOffset) + Seconds(hour * 3600 + minute * 60))
  {
    NoZoneAtEnd();
    hide StatedClock, ZoneOffset, Midnight, ClockText, ClockToday, StartsZone;
    StatedClockOfBanner(prefix, filler, hour, minute, clock, "");
    ClockTodayIsTotal(hour, minute, None, now, localOffset);
  }

  /** Just after midnight the wake-up can be a day later than yesterday's reset still in its buffer:
      "resets 23:58" read at 00:01 waits for tonight although 00:03 is ahead. */
  lemma WakeSkipsYesterday()
    ensures var now := Seconds(60);
      var reset := ResetAt(Banner("", "s ", 23, 58, TwentyFour(Full), 0, Zulu(false), ""), now, 0);
      && reset.Some?
      && now < reset.value + Seconds(300) - Days(1) < UsageWakeAt(reset, now)
  {
    hide Banner, ResetAt;
    BannerRoundTrip("", "s ", 23, 58, TwentyFour(Full), 0, Zulu(false), "", Seconds(60), 0);
  }

  // ---------- A bare zone name ----------

  /** A zone name without a numeric offset is UTC exactly when only closing punctuation follows. */
  lemma BareUtcIff(lead: string, name: string, rest: string)
    requires forall i :: 0 <= i < |lead| ==> IsZoneLead(lead[i])
    requires name == "utc" || name == "gmt"
    requires TrimStart(rest) == "" || !IsSign(TrimStart(rest)[0])
    ensures ZoneOffset(lead + (name + rest)) ==
            if OnlyClosing(TrimStart(rest)) then Some(0) else None
  {
    hide ZoneOffset, NamedZone, TrimStart, OnlyClosing;
    ZoneOfName(lead, name, rest);
    NamedZoneIff(TrimStart(rest));
  }

  ghost predicate OnlyClosing(s: string)
  {
    forall i :: 0 <= i < |s| ==> s[i] == ')' || s[i] == ',' || s[i] == '.' || s[i] == ' '
  }

  lemma ZoneOfName(lead: string, name: string, rest: string)
    requires forall i :: 0 <= i < |lead| ==> IsZoneLead(lead[i])
    requires name == "utc" || name == "gmt"
    ensures ZoneOffset(lead + (name + rest)) == NamedZone(TrimStart(rest))
  {
    NamedToken(name, rest);
    assert !IsZoneLead(name[0]);
    hide ZoneToken, NamedZone, TrimStart, ZoneOffset;
    ZoneAfterLead(lead, name, rest);
  }

  lemma ZoneAfterLead(lead: string, name: string, rest: string)
    requires forall i :: 0 <= i < |lead| ==> IsZoneLead(lead[i])
    requires name != "" && !IsZoneLead(name[0])
    ensures ZoneOffset(lead + (name + rest)) == ZoneToken(name + rest)
  {
    hide ZoneToken;
    AppendHead(name, rest);
    DropWhilePrefix(lead, name + rest, IsZoneLead);
  }

  lemma NamedToken(name: string, rest: string)
    requires name == "utc" || name == "gmt"
    ensures ZoneToken(name + rest) == NamedZone(TrimStart(rest))
  {
    PrefixAndRest(name, rest);
    hide NamedZone;
  }

  lemma NamedZoneIff(r: string)
    requires r == "" || !IsSign(r[0])
    ensures NamedZone(r) == if OnlyClosing(r) then Some(0) else None
  {
    if OnlyClosing(r) {
      DropWhilePrefix(r, "", IsZoneTail);
      assert r + "" == r;
    }
  }

  /** "(utc) now" is not read as UTC. */
  lemma BareUtcWithTextIsIgnored()
    ensures ZoneOffset(" (" + ("utc" + ") now")) == None
  {
    var rest := ") now";
    assert rest[0] == ')' && rest[2] == 'n';
    hide ZoneOffset, DropWhile;
    DropWhileStops(rest, IsWhitespace);
    BareUtcIff(" (", "utc", rest);
    assert !IsZoneTail(rest[2]);
  }

  // ---------- Classification ----------

  lemma {:induction false} ContainsMore(before: string, s: string, p: string, after: string)
    requires Contains(s, p)
    ensures Contains(before + (s + after), p)
  {
    if before != "" {
      AppendHead(before, s + after);
      ContainsMore(before[1..], s, p, after);
    } else {
      AppendEmpty(s + after);
      if p <= s {
        assert p <= s + after;
      } else {
        AppendHead(s, after);
        ContainsMore("", s[1..], p, after);
        AppendEmpty(s[1..] + after);
      }
    }
  }

  lemma RateStillShown(lower: string, more: string)
    requires ShowsRateLimit(lower) && forall p :: Contains(lower, p) ==> Contains(more, p)
    ensures ShowsRateLimit(more)
  {
    hide Contains;
  }

  lemma UsageStillShown(lower: string, more: string)
    requires ShowsUsageLimit(lower) && forall p :: Contains(lower, p) ==> Contains(more, p)
    ensures ShowsUsageLimit(more)
  {
    hide Contains;
  }

  /** Text around a banner never hides it: whatever the clock and the zone, a pane that shows a rate
      limit shows one with more text around it, and one that shows a window limit shows that or a
      rate limit. */
  lemma MoreTextNeverHides(before: string, lower: string, after: string, now: Instant, localOffset: int,
                           now': Instant, localOffset': int)
    ensures var small := DetectLimit(lower, now, localOffset);
      var large := DetectLimit(before + (lower + after), now', localOffset');
      && (small == Some(RateLimited) ==> large == Some(RateLimited))
      && (small.Some? && small.value.UsageLimited? ==> large.Some? && !large.value.Overloaded?)
  {
    hide Contains, ShowsRateLimit, ShowsUsageLimit, ShowsOverload, ResetAt;
    var more := before + (lower + after);
    forall p | Contains(lower, p) ensures Contains(more, p) { ContainsMore(before, lower, p, after); }
    if ShowsRateLimit(lower) { RateStillShown(lower, more); }
    if ShowsUsageLimit(lower) { UsageStillShown(lower, more); }
  }
}
