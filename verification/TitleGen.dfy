/** Workspace titles: arrow normalisation, canonical form and the first-line hint. */
module TitleGen {
  import opened Text

  const ARROW: char := '\U{2192}'
  const HINT_ARROW_MAX_CHARS := 100

  // ---------- Arrows ----------

  /** The arrow at `i` stands between two spaces. */
  predicate Flanked(s: string, i: nat)
  {
    0 < i < |s| - 1 && s[i - 1] == ' ' && s[i] == ARROW && s[i + 1] == ' '
  }

  /** Every flanked arrow becomes "->", all at once; nothing else changes. */
  function RewriteAt(s: string, i: nat): string
    decreases |s| - i
  {
    if i >= |s| then "" else (if Flanked(s, i) then "->" else [s[i]]) + RewriteAt(s, i + 1)
  }

  function Rewrite(s: string): string { RewriteAt(s, 0) }

  const SPACED_ARROW: string := [' ', ARROW, ' ']

  /** `str::replace`: left to right, without overlaps. */
  function ReplaceArrows(s: string): string
  {
    if |s| < 3 then s
    else if s[0] == ' ' && s[1] == ARROW && s[2] == ' ' then " -> " + ReplaceArrows(s[3..])
    else [s[0]] + ReplaceArrows(s[1..])
  }

  predicate HasSpacedArrow(s: string)
  {
    |s| >= 3 && ((s[0] == ' ' && s[1] == ARROW && s[2] == ' ') || HasSpacedArrow(s[1..]))
  }

  function Arrows(s: string): nat
  {
    if s == "" then 0 else (if s[0] == ARROW then 1 else 0) + Arrows(s[1..])
  }

  /** The same rewriting as a scan that remembers whether a space came just before. */
  function Scan(afterSpace: bool, s: string): string
    decreases |s|
  {
    if s == "" then ""
    else if afterSpace && s[0] == ARROW && |s| > 1 && s[1] == ' ' then "->" + Scan(false, s[1..])
    else [s[0]] + Scan(s[0] == ' ', s[1..])
  }

  lemma {:induction false} ScanIsRewrite(s: string, i: nat)
    requires i <= |s|
    ensures RewriteAt(s, i) == Scan(i > 0 && s[i - 1] == ' ', s[i..])
    decreases |s| - i
  {
    if i < |s| {
      ScanIsRewrite(s, i + 1);
      assert s[i..][1..] == s[i + 1..];
    }
  }

  lemma ReplaceKeepsFirst(s: string)
    ensures s != "" ==> ReplaceArrows(s) != "" && ReplaceArrows(s)[0] == s[0]
  {}

  lemma ScanOfSpace(b: bool, x: string)
    ensures Scan(b, " " + x) == " " + Scan(true, x)
  {
    assert (" " + x)[1..] == x;
  }

  lemma ScanOfSpacedArrow(b: bool, x: string)
    ensures Scan(b, SPACED_ARROW + x) == " -> " + Scan(true, x)
  {
    var s, t := SPACED_ARROW + x, [ARROW] + (" " + x);
    assert s == " " + t;
    ScanOfSpace(b, t);
    assert t[0] == ARROW && t[1] == ' ' && t[1..] == " " + x;
    ScanOfSpace(false, x);
    assert Scan(true, t) == "->" + (" " + Scan(true, x));
  }

  lemma ScanOfWrittenArrow(b: bool, x: string)
    ensures Scan(b, " -> " + x) == " -> " + Scan(true, x)
  {
    var u := ">" + (" " + x);
    var t := "-" + u;
    assert " -> " + x == " " + t;
    ScanOfSpace(b, t);
    assert t[1..] == u && u[1..] == " " + x;
    ScanOfSpace(false, x);
    assert Scan(false, u) == ">" + Scan(false, " " + x);
    assert Scan(true, t) == "-" + Scan(false, u);
  }

  /** One non-overlapping pass does not change what remains to be rewritten. */
  lemma {:induction false} PassKeepsScan(b: bool, s: string)
    ensures Scan(b, ReplaceArrows(s)) == Scan(b, s)
    decreases |s|
  {
    if |s| >= 3 {
      if s[0] == ' ' && s[1] == ARROW && s[2] == ' ' {
        assert s == SPACED_ARROW + s[3..];
        PassKeepsScan(true, s[3..]);
        ScanOfSpacedArrow(b, s[3..]);
        ScanOfWrittenArrow(b, ReplaceArrows(s[3..]));
      } else {
        var r := ReplaceArrows(s[1..]);
        ReplaceKeepsFirst(s[1..]);
        assert ([s[0]] + r)[1..] == r;
        PassKeepsScan(false, s[1..]);
        PassKeepsScan(s[0] == ' ', s[1..]);
      }
    }
  }

  lemma ArrowsCons(c: char, x: string)
    ensures Arrows([c] + x) == (if c == ARROW then 1 else 0) + Arrows(x)
  {
    assert ([c] + x)[1..] == x;
  }

  lemma ArrowsOfPair(x: string)
    ensures Arrows(SPACED_ARROW + x) == 1 + Arrows(x)
    ensures Arrows(" -> " + x) == Arrows(x)
  {
    hide Arrows;
    ArrowsCons(' ', x);
    ArrowsCons(ARROW, [' '] + x);
    ArrowsCons(' ', [ARROW] + ([' '] + x));
    assert SPACED_ARROW + x == [' '] + ([ARROW] + ([' '] + x));
    ArrowsCons('>', [' '] + x);
    ArrowsCons('-', ['>'] + ([' '] + x));
    ArrowsCons(' ', ['-'] + (['>'] + ([' '] + x)));
    assert " -> " + x == [' '] + (['-'] + (['>'] + ([' '] + x)));
  }

  lemma {:induction false} PassReducesArrows(s: string)
    ensures Arrows(ReplaceArrows(s)) <= Arrows(s)
    ensures HasSpacedArrow(s) ==> Arrows(ReplaceArrows(s)) < Arrows(s)
  {
    if |s| >= 3 {
      hide Arrows;
      if s[0] == ' ' && s[1] == ARROW && s[2] == ' ' {
        PassReducesArrows(s[3..]);
        assert s == SPACED_ARROW + s[3..];
        ArrowsOfPair(s[3..]);
        ArrowsOfPair(ReplaceArrows(s[3..]));
      } else {
        PassReducesArrows(s[1..]);
        assert s == [s[0]] + s[1..];
        ArrowsCons(s[0], s[1..]);
        ArrowsCons(s[0], ReplaceArrows(s[1..]));
      }
    }
  }

  lemma {:induction false} ScanWithoutArrows(b: bool, s: string)
    requires !HasSpacedArrow(s)
    requires !(b && |s| > 1 && s[0] == ARROW && s[1] == ' ')
    ensures Scan(b, s) == s
    decreases |s|
  {
    if s != "" {
      assert s[0] == ' ' && |s| > 2 ==> !(s[1] == ARROW && s[2] == ' ');
      ScanWithoutArrows(s[0] == ' ', s[1..]);
      assert s == [s[0]] + s[1..];
    }
  }

  /** Repeating the non-overlapping replacement until no spaced arrow is left terminates and is the
      simultaneous rewrite of every arrow between spaces. */
  method NormalizeArrows(s: string) returns (out: string)
    ensures out == Rewrite(s)
    ensures !HasSpacedArrow(out)
  {
    out := s;
    ScanIsRewrite(s, 0);
    assert s[0..] == s;
    while HasSpacedArrow(out)
      invariant Scan(false, out) == Rewrite(s)
      decreases Arrows(out)
    {
      PassKeepsScan(false, out);
      PassReducesArrows(out);
      out := ReplaceArrows(out);
    }
    ScanWithoutArrows(false, out);
  }

  // ---------- Whitespace ----------

  /** Number of characters before the first whitespace. */
  function WordLength(s: string): (n: nat)
    ensures n <= |s|
    ensures n < |s| ==> IsWhitespace(s[n])
    ensures forall i :: 0 <= i < n ==> !IsWhitespace(s[i])
  {
    if s == "" || IsWhitespace(s[0]) then 0 else 1 + WordLength(s[1..])
  }

  /** `split_whitespace` */
  function Words(s: string): seq<string>
    decreases |s|
  {
    if s == "" then []
    else if IsWhitespace(s[0]) then Words(s[1..])
    else [s[..WordLength(s)]] + Words(s[WordLength(s)..])
  }

  function Join(ws: seq<string>): string
  {
    if ws == [] then "" else if |ws| == 1 then ws[0] else ws[0] + " " + Join(ws[1..])
  }

  function Collapse(s: string): string { Join(Words(s)) }

  /** No whitespace but single spaces, none at the end, and none first when `afterSpace`. */
  predicate TidyFrom(afterSpace: bool, s: string)
    decreases |s|
  {
    if s == "" then !afterSpace
    else if IsWhitespace(s[0]) then s[0] == ' ' && !afterSpace && TidyFrom(true, s[1..])
    else TidyFrom(false, s[1..])
  }

  predicate Tidy(s: string) { s == "" || TidyFrom(true, s) }

  predicate IsWord(w: string) { w != "" && forall i :: 0 <= i < |w| ==> !IsWhitespace(w[i]) }

  lemma {:induction false} TidyAfterWord(a: bool, w: string, x: string)
    requires IsWord(w)
    ensures TidyFrom(a, w + x) == TidyFrom(false, x)
  {
    assert (w + x)[1..] == w[1..] + x;
    assert !IsWhitespace((w + x)[0]);
    if |w| == 1 {
      assert w[1..] + x == x;
    } else {
      TidyAfterWord(false, w[1..], x);
    }
  }

  lemma {:induction false} WordsAreWords(s: string)
    ensures forall i :: 0 <= i < |Words(s)| ==> IsWord(Words(s)[i])
    decreases |s|
  {
    if s == "" {
    } else if IsWhitespace(s[0]) {
      WordsAreWords(s[1..]);
    } else {
      WordsAreWords(s[WordLength(s)..]);
    }
  }

  lemma {:induction false} JoinIsTidy(ws: seq<string>)
    requires forall i :: 0 <= i < |ws| ==> IsWord(ws[i])
    ensures Tidy(Join(ws)) && (ws != [] ==> Join(ws) != "")
  {
    if |ws| == 1 {
      TidyAfterWord(true, ws[0], "");
      assert ws[0] + "" == ws[0];
    } else if |ws| > 1 {
      JoinIsTidy(ws[1..]);
      var rest := " " + Join(ws[1..]);
      TidyAfterWord(true, ws[0], rest);
      assert rest[1..] == Join(ws[1..]);
      assert ws[0] + " " + Join(ws[1..]) == ws[0] + rest;
    }
  }

  /** Collapsing gives tidy text, and tidy text collapses to itself. */
  lemma CollapseIsTidy(s: string)
    ensures Tidy(Collapse(s))
  {
    WordsAreWords(s);
    JoinIsTidy(Words(s));
  }

  lemma {:induction false} TidyIsCollapsed(s: string)
    requires Tidy(s)
    ensures Collapse(s) == s
    decreases |s|
  {
    if s != "" {
      var n := WordLength(s);
      var w, x := s[..n], s[n..];
      assert s == w + x;
      TidyAfterWord(true, w, x);
      if x == "" {
        assert Words(s) == [w];
      } else {
        assert x[0] == ' ' && TidyFrom(true, x[1..]);
        TidyIsCollapsed(x[1..]);
        assert x[1..] != "";
        assert Words(s) == [w] + Words(x[1..]);
        hide Words, TidyFrom, WordLength;
        NonEmptyWords(x[1..]);
        JoinCons(w, Words(x[1..]));
        assert x == " " + x[1..];
      }
    }
  }

  lemma JoinCons(w: string, ws: seq<string>)
    requires ws != []
    ensures Join([w] + ws) == w + (" " + Join(ws))
  {
    AppendHead([w], ws);
    AppendEmpty(ws);
    AppendAssoc(w, " ", Join(ws));
  }

  lemma NonEmptyWords(s: string)
    requires Join(Words(s)) != ""
    ensures Words(s) != []
  {}

  lemma {:induction false} TidyPrefix(a: bool, s: string, p: string)
    requires TidyFrom(a, s) && p <= s && p != "" && !IsWhitespace(p[|p| - 1])
    ensures TidyFrom(a, p)
    decreases |s|
  {
    assert p[0] == s[0];
    if |p| > 1 {
      assert p[1..] <= s[1..];
      TidyPrefix(IsWhitespace(s[0]), s[1..], p[1..]);
    }
  }

  lemma {:induction false} ScanKeepsTidy(a: bool, b: bool, s: string)
    requires TidyFrom(a, s)
    ensures TidyFrom(a, Scan(b, s))
    decreases |s|
  {
    if s != "" {
      if b && s[0] == ARROW && |s| > 1 && s[1] == ' ' {
        var r := Scan(false, s[1..]);
        ScanKeepsTidy(false, false, s[1..]);
        assert ("->" + r)[1..] == ">" + r && (">" + r)[1..] == r;
      } else {
        var r := Scan(s[0] == ' ', s[1..]);
        ScanKeepsTidy(IsWhitespace(s[0]), s[0] == ' ', s[1..]);
        assert ([s[0]] + r)[1..] == r;
      }
    }
  }

  lemma RewriteKeepsTidy(s: string)
    requires Tidy(s)
    ensures Tidy(Rewrite(s))
  {
    ScanIsRewrite(s, 0);
    assert s[0..] == s;
    if s != "" { ScanKeepsTidy(true, false, s); }
  }

  // ---------- The tail ----------

  predicate IsTailPunctuation(c: char) { c == '.' || c == ',' || c == ':' || c == ';' || c == ' ' }

  /** `s` ends in " -" */
  predicate EndsInDash(s: string) { |s| >= 2 && s[|s| - 2] == ' ' && s[|s| - 1] == '-' }

  /** `s` ends in " ->" */
  predicate EndsInArrow(s: string) { |s| >= 3 && s[|s| - 3] == ' ' && s[|s| - 2] == '-' && s[|s| - 1] == '>' }

  /** Text that may not end a title. */
  predicate BadEnd(s: string)
  {
    || (s != "" && IsTailPunctuation(s[|s| - 1]))
    || EndsInArrow(s) || EndsInDash(s)
  }

  function TrimTail(s: string): (r: string)
    ensures r <= s && !BadEnd(r)
    ensures forall n :: |r| < n <= |s| ==> BadEnd(s[..n])
  {
    if BadEnd(s) then
      var r := TrimTail(s[..|s| - 1]);
      assert forall n :: 0 <= n <= |s| - 1 ==> s[..|s| - 1][..n] == s[..n];
      assert s[..|s|] == s;
      r
    else s
  }

  lemma TrimStep(s: string, p: string)
    requires p <= s && forall n :: |p| < n <= |s| ==> BadEnd(s[..n])
    ensures TrimTail(s) == TrimTail(p)
  {
    var r, q := TrimTail(s), TrimTail(p);
    assert s[..|r|] == r && p[..|q|] == q == s[..|q|];
    assert |r| <= |p|;
    assert p[..|r|] == s[..|r|] == r;
  }

  /** The trimming loop: punctuation, then one arrow fragment, until nothing more goes. */
  method TrimTailLoop(capped: string) returns (tail: string)
    ensures tail == TrimTail(capped)
  {
    tail := capped;
    while true
      invariant TrimTail(tail) == TrimTail(capped)
      decreases |tail|
    {
      var before := tail;
      tail := DropLastWhile(tail, IsTailPunctuation);
      PunctuationGoes(before, tail);
      var kept := tail;
      if EndsInArrow(tail) {
        tail := tail[..|tail| - 3];
        FragmentGoes(kept, 3);
      } else if EndsInDash(tail) {
        tail := tail[..|tail| - 2];
        FragmentGoes(kept, 2);
      }
      if |tail| == |before| {
        assert !BadEnd(tail);
        break;
      }
    }
  }

  lemma PunctuationGoes(s: string, p: string)
    requires p <= s && forall i :: |p| <= i < |s| ==> IsTailPunctuation(s[i])
    ensures TrimTail(s) == TrimTail(p)
  {
    forall n | |p| < n <= |s| ensures BadEnd(s[..n]) {
      assert s[..n][n - 1] == s[n - 1];
    }
    TrimStep(s, p);
  }

  lemma FragmentPrefixBad(s: string, k: nat, n: nat)
    requires (k == 3 && EndsInArrow(s)) || (k == 2 && EndsInDash(s))
    requires |s| - k < n <= |s|
    ensures BadEnd(s[..n])
  {
    var t := s[..n];
    assert t[n - 1] == s[n - 1];
    assert n >= 2 ==> t[n - 2] == s[n - 2];
    assert n >= 3 ==> t[n - 3] == s[n - 3];
  }

  lemma FragmentGoes(s: string, k: nat)
    requires (k == 3 && EndsInArrow(s)) || (k == 2 && EndsInDash(s))
    ensures TrimTail(s) == TrimTail(s[..|s| - k])
  {
    assert k <= |s|;
    hide TrimTail, BadEnd, EndsInArrow, EndsInDash;
    var p := s[..|s| - k];
    forall n | |p| < n <= |s| ensures BadEnd(s[..n]) {
      FragmentPrefixBad(s, k, n);
    }
    TrimStep(s, p);
  }

  // ---------- Canonical titles ----------

  function RemoveControl(s: string): string
  {
    if s == "" then "" else (if IsControl(s[0]) then "" else [s[0]]) + RemoveControl(s[1..])
  }

  function Cap(s: string, max: nat): string { if |s| <= max then s else s[..max] }

  function CanonicalTitle(raw: string, max: nat): string
  {
    TrimTail(Cap(RemoveControl(Rewrite(Collapse(raw))), max))
  }

  method CanonicalizeTitle(raw: string, max: nat) returns (title: string)
    ensures title == CanonicalTitle(raw, max)
  {
    var joined := NormalizeArrows(Collapse(raw));
    title := TrimTailLoop(Cap(RemoveControl(joined), max));
  }

  // ---------- Idempotence ----------

  predicate ControlFree(s: string) { forall i :: 0 <= i < |s| ==> !IsControl(s[i]) }

  lemma {:induction false} RemoveControlNothing(s: string)
    requires ControlFree(s)
    ensures RemoveControl(s) == s
  {
    if s != "" {
      RemoveControlNothing(s[1..]);
      assert s == [s[0]] + s[1..];
    }
  }

  lemma {:induction false} RemoveControlAll(s: string)
    ensures ControlFree(RemoveControl(s)) && |RemoveControl(s)| <= |s|
  {
    if s != "" { RemoveControlAll(s[1..]); }
  }

  /** The only control characters are whitespace. */
  predicate PlainControls(s: string) { forall i :: 0 <= i < |s| && IsControl(s[i]) ==> IsWhitespace(s[i]) }

  lemma {:induction false} WordsControlFree(s: string)
    requires PlainControls(s)
    ensures forall i :: 0 <= i < |Words(s)| ==> ControlFree(Words(s)[i])
    decreases |s|
  {
    if s == "" {
    } else if IsWhitespace(s[0]) {
      WordsControlFree(s[1..]);
    } else {
      var n := WordLength(s);
      assert ControlFree(s[..n]);
      WordsControlFree(s[n..]);
    }
  }

  lemma {:induction false} JoinControlFree(ws: seq<string>)
    requires forall i :: 0 <= i < |ws| ==> ControlFree(ws[i])
    ensures ControlFree(Join(ws))
  {
    if |ws| > 1 { JoinControlFree(ws[1..]); }
  }

  lemma {:induction false} ScanControlFree(b: bool, s: string)
    requires ControlFree(s)
    ensures ControlFree(Scan(b, s))
    decreases |s|
  {
    if s != "" {
      ScanControlFree(false, s[1..]);
      ScanControlFree(s[0] == ' ', s[1..]);
    }
  }

  lemma {:induction false} NoSpacedArrowInPrefix(s: string, p: string)
    requires !HasSpacedArrow(s) && p <= s
    ensures !HasSpacedArrow(p)
  {
    if |p| >= 3 {
      assert p[1..] <= s[1..];
      NoSpacedArrowInPrefix(s[1..], p[1..]);
    }
  }

  lemma {:induction false} ScanLeavesNone(b: bool, s: string)
    ensures !HasSpacedArrow(Scan(b, s))
    ensures b && |Scan(b, s)| > 1 ==> !(Scan(b, s)[0] == ARROW && Scan(b, s)[1] == ' ')
    ensures Scan(b, s) != "" && Scan(b, s)[0] == ' ' ==> s != "" && s[0] == ' '
    decreases |s|
  {
    if s != "" {
      if b && s[0] == ARROW && |s| > 1 && s[1] == ' ' {
        var r := Scan(false, s[1..]);
        ScanLeavesNone(false, s[1..]);
        assert ("->" + r)[1..] == ">" + r && (">" + r)[1..] == r;
        assert !HasSpacedArrow(">" + r);
      } else {
        var r := Scan(s[0] == ' ', s[1..]);
        ScanLeavesNone(s[0] == ' ', s[1..]);
        assert ([s[0]] + r)[1..] == r;
      }
    }
  }

  /** Text that canonicalisation leaves alone but for its length and its tail. */
  predicate Settled(s: string) { Tidy(s) && !HasSpacedArrow(s) && ControlFree(s) }

  lemma SettledIsFixed(s: string, max: nat)
    requires Settled(s) && !BadEnd(s) && |s| <= max
    ensures CanonicalTitle(s, max) == s
  {
    TidyIsCollapsed(s);
    ScanIsRewrite(s, 0);
    assert s[0..] == s;
    ScanWithoutArrows(false, s);
    RemoveControlNothing(s);
  }

  lemma NormalFormSettled(raw: string)
    requires PlainControls(raw)
    ensures Settled(Rewrite(Collapse(raw)))
  {
    var c := Collapse(raw);
    CollapseIsTidy(raw);
    RewriteKeepsTidy(c);
    WordsControlFree(raw);
    JoinControlFree(Words(raw));
    ScanIsRewrite(c, 0);
    assert c[0..] == c;
    ScanControlFree(false, c);
    ScanLeavesNone(false, c);
  }

  lemma SettledPrefix(s: string, p: string)
    requires Settled(s) && p <= s && !BadEnd(p)
    ensures Settled(p)
  {
    NoSpacedArrowInPrefix(s, p);
    if p != "" {
      WhitespaceIsSpace(true, s, |p| - 1);
      assert p[|p| - 1] == s[|p| - 1];
      TidyPrefix(true, s, p);
    }
  }

  lemma {:induction false} WhitespaceIsSpace(a: bool, s: string, i: nat)
    requires TidyFrom(a, s) && i < |s|
    ensures IsWhitespace(s[i]) ==> s[i] == ' '
    decreases |s|
  {
    if i > 0 { WhitespaceIsSpace(IsWhitespace(s[0]), s[1..], i - 1); }
  }

  lemma CanonicalIsSettled(raw: string, max: nat)
    requires PlainControls(raw)
    ensures Settled(CanonicalTitle(raw, max))
  {
    var n := Rewrite(Collapse(raw));
    NormalFormSettled(raw);
    RemoveControlNothing(n);
    SettledPrefix(n, CanonicalTitle(raw, max));
  }

  /** On text whose only control characters are whitespace, canonicalising twice is canonicalising once. */
  lemma CanonicalTwice(raw: string, max: nat)
    requires PlainControls(raw)
    ensures CanonicalTitle(CanonicalTitle(raw, max), max) == CanonicalTitle(raw, max)
  {
    CanonicalIsSettled(raw, max);
    SettledIsFixed(CanonicalTitle(raw, max), max);
  }

  /** A title is a fixed point exactly when it is tidy and has no arrow between spaces. */
  lemma FixedIffTidy(raw: string, max: nat)
    ensures var once := CanonicalTitle(raw, max);
      CanonicalTitle(once, max) == once <==> Tidy(once) && !HasSpacedArrow(once)
  {
    var once := CanonicalTitle(raw, max);
    var u := RemoveControl(Rewrite(Collapse(raw)));
    RemoveControlAll(Rewrite(Collapse(raw)));
    assert forall i :: 0 <= i < |once| ==> once[i] == u[i];
    assert ControlFree(once);
    if Tidy(once) && !HasSpacedArrow(once) {
      SettledIsFixed(once, max);
    } else if CanonicalTitle(once, max) == once {
      CanonicalIsSettled(once, max);
    }
  }

  // ---------- Idempotence on the words of the text ----------

  /** Word `i` as it is spelled in the title: an arrow between two words becomes "->", and control
      characters are dropped. With `afterSpace` the words follow another one. */
  function CleanWord(afterSpace: bool, ws: seq<string>, i: nat): string
    requires i < |ws|
  {
    RemoveControl(if (i > 0 || afterSpace) && i < |ws| - 1 && ws[i] == [ARROW] then "->" else ws[i])
  }

  function CleanWordsFrom(afterSpace: bool, ws: seq<string>): (cs: seq<string>)
    ensures |cs| == |ws| && forall i :: 0 <= i < |ws| ==> cs[i] == CleanWord(afterSpace, ws, i)
    decreases |ws|
  {
    if ws == [] then [] else [CleanWord(afterSpace, ws, 0)] + CleanWordsFrom(true, ws[1..])
  }

  function CleanWords(raw: string): seq<string> { CleanWordsFrom(false, Words(raw)) }

  /** Where word `i` starts in the joined text. */
  function Offset(ws: seq<string>, i: nat): nat
    requires i <= |ws|
  {
    if i == 0 then 0 else |ws[0]| + 1 + Offset(ws[1..], i - 1)
  }

  /** How much of the joined words the cap and the trimming keep. */
  function KeptLength(cs: seq<string>, max: nat): nat { |TrimTail(Cap(Join(cs), max))| }

  predicate SpaceFree(w: string) { forall i :: 0 <= i < |w| ==> !IsWhitespace(w[i]) }

  predicate AllSpaceFree(cs: seq<string>) { forall i :: 0 <= i < |cs| ==> SpaceFree(cs[i]) }

  lemma {:induction false} RemoveControlAppend(x: string, y: string)
    ensures RemoveControl(x + y) == RemoveControl(x) + RemoveControl(y)
  {
    if x == "" {
      AppendEmpty(y);
    } else {
      AppendHead(x, y);
      RemoveControlAppend(x[1..], y);
    }
  }

  lemma {:induction false} RemoveControlSpaceFree(w: string)
    requires SpaceFree(w)
    ensures SpaceFree(RemoveControl(w))
  {
    if w != "" { RemoveControlSpaceFree(w[1..]); }
  }

  lemma ScanOfLetter(c: char, y: string)
    requires c != ' '
    ensures Scan(false, [c] + y) == [c] + Scan(false, y)
  {
    assert ([c] + y)[1..] == y;
  }

  lemma {:induction false} ScanOfLetters(w: string, x: string)
    requires SpaceFree(w)
    ensures Scan(false, w + x) == w + Scan(false, x)
  {
    hide Scan;
    if w == "" {
      AppendEmpty(x);
      AppendEmpty(Scan(false, x));
    } else {
      AppendHead(w, x);
      ScanOfLetter(w[0], w[1..] + x);
      ScanOfLetters(w[1..], x);
      AppendHead(w, Scan(false, x));
    }
  }

  /** Scanning one word at the end of the text or before a space. */
  lemma ScanOfWord(b: bool, w: string, x: string)
    requires IsWord(w) && (x == "" || x[0] == ' ')
    ensures Scan(b, w + x) == (if b && x != "" && w == [ARROW] then "->" else w) + Scan(false, x)
  {
    var s := w + x;
    if b && w == [ARROW] && x != "" {
      assert s[1] == ' ' && s[1..] == x;
    } else {
      assert w[0] == ARROW && |s| > 1 ==> !(b && s[1] == ' ') by {
        if |w| > 1 { assert s[1] == w[1]; } else { assert w == [w[0]]; }
      }
      ScanUnchanged(b, s);
      hide Scan;
      ScanOfLetters(w, x);
    }
  }

  lemma ScanUnchanged(b: bool, s: string)
    requires s != "" && !(b && s[0] == ARROW && |s| > 1 && s[1] == ' ')
    ensures Scan(b, s) == Scan(false, s)
  {
  }

  /** Rewriting arrows and dropping control characters acts word by word. */
  lemma {:induction false} CleanedJoin(afterSpace: bool, ws: seq<string>)
    requires forall i :: 0 <= i < |ws| ==> IsWord(ws[i])
    ensures RemoveControl(Scan(afterSpace, Join(ws))) == Join(CleanWordsFrom(afterSpace, ws))
    decreases |ws|
  {
    if |ws| == 1 {
      ScanOfWord(afterSpace, ws[0], "");
      AppendEmpty(ws[0]);
    } else if |ws| > 1 {
      var w, rest := ws[0], ws[1..];
      CleanedJoin(true, rest);
      var cs := CleanWordsFrom(true, rest);
      var own := if afterSpace && w == [ARROW] then "->" else w;
      hide Join, CleanWordsFrom;
      JoinTwo(ws);
      ScanOfWord(afterSpace, w, " " + Join(rest));
      ScanOfSpace(false, Join(rest));
      RemoveControlAppend(own, " " + Scan(true, Join(rest)));
      RemoveControlAppend(" ", Scan(true, Join(rest)));
      assert RemoveControl(" ") == " ";
      JoinCons(RemoveControl(own), cs);
      CleanFirst(afterSpace, ws);
    }
  }

  lemma JoinTwo(ws: seq<string>)
    requires |ws| > 1
    ensures Join(ws) == ws[0] + (" " + Join(ws[1..]))
  {
    AppendAssoc(ws[0], " ", Join(ws[1..]));
  }

  lemma CleanFirst(afterSpace: bool, ws: seq<string>)
    requires |ws| > 1
    ensures CleanWordsFrom(afterSpace, ws) ==
            [RemoveControl(if afterSpace && ws[0] == [ARROW] then "->" else ws[0])] + CleanWordsFrom(true, ws[1..])
  {}

  lemma CleanWordsSpaceFree(raw: string)
    ensures AllSpaceFree(CleanWords(raw))
  {
    WordsAreWords(raw);
    var ws := Words(raw);
    forall i | 0 <= i < |ws| ensures SpaceFree(CleanWord(false, ws, i)) {
      assert IsWord(ws[i]);
      RemoveControlSpaceFree("->");
      RemoveControlSpaceFree(ws[i]);
    }
  }

  /** The title is what the cap and the trimming keep of the cleaned words. */
  lemma TitleOfWords(raw: string, max: nat)
    ensures var cs := CleanWords(raw);
      && CanonicalTitle(raw, max) == TrimTail(Cap(Join(cs), max))
      && KeptLength(cs, max) <= |Join(cs)| && CanonicalTitle(raw, max) == Join(cs)[..KeptLength(cs, max)]
  {
    var c := Collapse(raw);
    WordsAreWords(raw);
    CleanedJoin(false, Words(raw));
    ScanIsRewrite(c, 0);
    assert c[0..] == c;
  }

  /** The title is the longest start of the cleaned words that has at most `max` characters and does not
      end badly. */
  lemma TitleIsLongest(raw: string, max: nat)
    ensures var title, text := CanonicalTitle(raw, max), Join(CleanWords(raw));
      && title <= text && |title| <= max && !BadEnd(title)
      && forall n :: |title| < n <= |text| && n <= max ==> BadEnd(text[..n])
  {
    TitleOfWords(raw, max);
    var title, text := CanonicalTitle(raw, max), Join(CleanWords(raw));
    var capped := Cap(text, max);
    forall n | |title| < n <= |text| && n <= max ensures BadEnd(text[..n]) {
      assert capped[..n] == text[..n];
    }
  }

  /** A prefix of joined words: inside the first word, or past it and its space. */
  lemma JoinPrefix(cs: seq<string>, n: nat)
    requires cs != [] && n <= |Join(cs)|
    ensures n <= |cs[0]| ==> Join(cs)[..n] == cs[0][..n]
    ensures n > |cs[0]| ==>
              && |cs| > 1 && n - |cs[0]| - 1 <= |Join(cs[1..])|
              && Join(cs)[..n] == cs[0] + (" " + Join(cs[1..])[..n - |cs[0]| - 1])
  {
    if |cs| > 1 { JoinTwo(cs); }
  }

  /** No empty word starts before `n`. */
  predicate NoEmptyBefore(cs: seq<string>, n: int)
  {
    forall i :: 0 <= i < |cs| ==> !(cs[i] == "" && Offset(cs, i) < n)
  }

  /** A word that is an arrow and is followed by a space within the first `n` characters. */
  predicate ArrowBefore(cs: seq<string>, from: nat, n: int)
  {
    exists i :: from <= i < |cs| && cs[i] == [ARROW] && Offset(cs, i) + 1 < n
  }

  lemma BeforeSplits(cs: seq<string>, n: int)
    requires cs != []
    ensures NoEmptyBefore(cs, n) <==> !(cs[0] == "" && 0 < n) && NoEmptyBefore(cs[1..], n - |cs[0]| - 1)
    ensures ArrowBefore(cs, 1, n) <==> ArrowBefore(cs[1..], 0, n - |cs[0]| - 1)
    ensures ArrowBefore(cs, 0, n) <==> (cs[0] == [ARROW] && 1 < n) || ArrowBefore(cs, 1, n)
  {
    var rest, m := cs[1..], n - |cs[0]| - 1;
    assert forall i :: 0 <= i < |rest| ==> rest[i] == cs[i + 1] && Offset(cs, i + 1) == |cs[0]| + 1 + Offset(rest, i);
    if NoEmptyBefore(cs, n) {
      forall i | 0 <= i < |rest| ensures !(rest[i] == "" && Offset(rest, i) < m) { assert rest[i] == cs[i + 1]; }
    }
    if NoEmptyBefore(rest, m) && !(cs[0] == "" && 0 < n) {
      forall i | 0 <= i < |cs| ensures !(cs[i] == "" && Offset(cs, i) < n) {
        if i > 0 { assert rest[i - 1] == cs[i]; }
      }
    }
    if ArrowBefore(cs, 1, n) {
      var i :| 1 <= i < |cs| && cs[i] == [ARROW] && Offset(cs, i) + 1 < n;
      assert rest[i - 1] == cs[i];
    }
    if ArrowBefore(rest, 0, m) {
      var i :| 0 <= i < |rest| && rest[i] == [ARROW] && Offset(rest, i) + 1 < m;
      assert cs[i + 1] == rest[i];
    }
  }

  lemma {:induction false} NothingBefore(cs: seq<string>, n: int)
    requires n <= 0
    ensures NoEmptyBefore(cs, n) && !ArrowBefore(cs, 0, n)
  {}

  /** A prefix of space-separated words is tidy exactly when none of the words it reaches is empty. */
  lemma {:induction false} PrefixTidyIff(cs: seq<string>, n: nat)
    requires AllSpaceFree(cs) && 0 < n <= |Join(cs)| && Join(cs)[n - 1] != ' '
    ensures TidyFrom(true, Join(cs)[..n]) <==> NoEmptyBefore(cs, n)
    decreases |cs|
  {
    var c, rest, p := cs[0], cs[1..], Join(cs)[..n];
    JoinPrefix(cs, n);
    BeforeSplits(cs, n);
    var m := n - |c| - 1;
    if n <= |c| {
      NothingBefore(rest, m);
      TidyAfterWord(true, p, "");
      AppendEmpty(p);
    } else {
      var q := Join(rest)[..m];
      assert p[n - 1] == Join(cs)[n - 1];
      assert m > 0;
      assert q[m - 1] == p[n - 1];
      assert (" " + q)[1..] == q;
      if c == "" {
        AppendEmpty(" " + q);
      } else {
        PrefixTidyIff(rest, m);
        TidyAfterWord(true, c, " " + q);
      }
    }
  }

  lemma {:induction false} NoArrowInLetters(w: string, x: string)
    requires SpaceFree(w)
    ensures HasSpacedArrow(w + x) == HasSpacedArrow(x)
  {
    if w == "" {
      AppendEmpty(x);
    } else {
      AppendHead(w, x);
      NoArrowInLetters(w[1..], x);
    }
  }

  lemma ArrowAfterSpace(q: string)
    ensures HasSpacedArrow(" " + q) <==> (|q| > 1 && q[0] == ARROW && q[1] == ' ') || HasSpacedArrow(q)
  {
    assert (" " + q)[1..] == q;
  }

  lemma StartsWithArrow(c: string, q: string)
    requires SpaceFree(c)
    ensures var p := c + (" " + q); (|p| > 1 && p[0] == ARROW && p[1] == ' ') <==> c == [ARROW]
  {
    var p := c + (" " + q);
    assert p[|c|] == ' ';
    assert |c| > 0 ==> p[0] == c[0];
    assert |c| > 1 ==> p[1] == c[1];
  }

  /** A prefix of words that follow a space has an arrow between spaces exactly when one of the words
      is an arrow and the prefix reaches past it. */
  lemma {:induction false} PrefixArrowIff(cs: seq<string>, n: nat)
    requires cs != [] && AllSpaceFree(cs) && n <= |Join(cs)|
    ensures HasSpacedArrow(" " + Join(cs)[..n]) <==> ArrowBefore(cs, 0, n)
    ensures HasSpacedArrow(Join(cs)[..n]) <==> ArrowBefore(cs, 1, n)
    decreases |cs|
  {
    var c, rest, p := cs[0], cs[1..], Join(cs)[..n];
    JoinPrefix(cs, n);
    BeforeSplits(cs, n);
    ArrowAfterSpace(p);
    var m := n - |c| - 1;
    if n <= |c| {
      NothingBefore(rest, m);
      NoArrowInLetters(p, "");
      AppendEmpty(p);
    } else {
      var q := Join(rest)[..m];
      StartsWithArrow(c, q);
      hide Join, HasSpacedArrow, ArrowBefore, NoEmptyBefore, Offset;
      PrefixArrowIff(rest, m);
      NoArrowInLetters(c, " " + q);
    }
  }

  /** On any text, a second run changes nothing exactly when, among the words of the text as spelled
      in the title, none that starts inside the title is empty, and none but the first is an arrow
      with a space after it inside the title. */
  lemma CanonicalTwiceIff(raw: string, max: nat)
    ensures var once := CanonicalTitle(raw, max);
      var cs := CleanWords(raw);
      CanonicalTitle(once, max) == once <==>
        NoEmptyBefore(cs, KeptLength(cs, max)) && !ArrowBefore(cs, 1, KeptLength(cs, max))
  {
    var cs, once := CleanWords(raw), CanonicalTitle(raw, max);
    var n := KeptLength(cs, max);
    FixedIffTidy(raw, max);
    TitleOfWords(raw, max);
    CleanWordsSpaceFree(raw);
    hide CanonicalTitle, CleanWords, TidyFrom, HasSpacedArrow;
    if n == 0 {
      NothingBefore(cs, 0);
      NoneBeforeStart(cs);
    } else {
      assert once[n - 1] == Join(cs)[n - 1];
      assert !BadEnd(once);
      PrefixTidyIff(cs, n);
      PrefixArrowIff(cs, n);
    }
  }

  lemma NoneBeforeStart(cs: seq<string>)
    ensures !ArrowBefore(cs, 1, 0) && !HasSpacedArrow("") && Tidy("")
  {}

  /** When the cleaned text is not empty, fits the cap and ends well, that is: no word is made of
      control characters only, and no word between two others comes out as an arrow. */
  lemma WholeTitleTwiceIff(raw: string, max: nat)
    requires var text := Join(CleanWords(raw)); text != "" && |text| <= max && !BadEnd(text)
    ensures var once := CanonicalTitle(raw, max);
      var cs := CleanWords(raw);
      CanonicalTitle(once, max) == once <==>
        && (forall i :: 0 <= i < |cs| ==> cs[i] != "")
        && (forall i :: 0 < i < |cs| - 1 ==> cs[i] != [ARROW])
  {
    var cs := CleanWords(raw);
    CanonicalTwiceIff(raw, max);
    hide CanonicalTitle, CleanWords;
    var n := |Join(cs)|;
    assert KeptLength(cs, max) == n;
    forall i | 0 <= i < |cs|
      ensures Offset(cs, i) + |cs[i]| <= n
      ensures Offset(cs, i) < n
      ensures i < |cs| - 1 <==> Offset(cs, i) + |cs[i]| < n
    {
      OffsetEnds(cs, i);
    }
  }

  /** Only the last word reaches the end of the text; no word starts there unless the text is empty
      or ends in a space. */
  lemma {:induction false} OffsetEnds(cs: seq<string>, i: nat)
    requires i < |cs| && Join(cs) != "" && Join(cs)[|Join(cs)| - 1] != ' '
    ensures Offset(cs, i) + |cs[i]| <= |Join(cs)| && Offset(cs, i) < |Join(cs)|
    ensures i < |cs| - 1 <==> Offset(cs, i) + |cs[i]| < |Join(cs)|
    decreases i
  {
    if |cs| > 1 {
      JoinTwo(cs);
      var rest := Join(cs[1..]);
      assert rest != "" by {
        if rest == "" { AppendEmpty([' ']); assert false; }
      }
      assert Join(cs)[|Join(cs)| - 1] == rest[|rest| - 1];
      if i > 0 { OffsetEnds(cs[1..], i - 1); }
    }
  }

  /** "a", a control character and "b", with spaces between. */
  const SPACED_CONTROL: string := "a" + (" " + ("\U{0001}" + (" " + "b")))

  lemma SpacedControlSteps()
    ensures Collapse(SPACED_CONTROL) == SPACED_CONTROL
    ensures Rewrite(SPACED_CONTROL) == SPACED_CONTROL
    ensures RemoveControl(SPACED_CONTROL) == "a" + (" " + (" " + "b"))
  {
    var s3 := " " + "b";
    var s2 := "\U{0001}" + s3;
    var s1 := " " + s2;
    var s0 := "a" + s1;
    assert s3[1..] == "b" && s2[1..] == s3 && s1[1..] == s2 && s0[1..] == s1;
    assert TidyFrom(true, "b") && TidyFrom(false, s3) && TidyFrom(true, s2) && TidyFrom(false, s1);
    TidyIsCollapsed(s0);
    assert s2[1] == ' ' && s1[1] == '\U{0001}' && s0[1] == ' ';
    assert !HasSpacedArrow(s2) && !HasSpacedArrow(s1) && !HasSpacedArrow(s0);
    ScanIsRewrite(s0, 0);
    assert s0[0..] == s0;
    ScanWithoutArrows(false, s0);
    assert RemoveControl("b") == "b" && RemoveControl(s3) == s3 && RemoveControl(s2) == s3;
    assert RemoveControl(s1) == " " + s3;
  }

  /** A control character between spaces leaves a double space that a second run removes. */
  lemma ControlBreaksIdempotence()
    ensures CanonicalTitle(SPACED_CONTROL, 10) == "a" + (" " + (" " + "b"))
    ensures CanonicalTitle(CanonicalTitle(SPACED_CONTROL, 10), 10) != CanonicalTitle(SPACED_CONTROL, 10)
  {
    hide Collapse, Rewrite, RemoveControl;
    SpacedControlSteps();
    var s2 := " " + "b";
    var s1 := " " + s2;
    var s0 := "a" + s1;
    assert s1[1..] == s2 && s0[1..] == s1;
    assert !TidyFrom(true, s2) && !TidyFrom(false, s1);
    assert s0[|s0| - 1] == 'b';
    assert TrimTail(s0) == s0;
    FixedIffTidy(SPACED_CONTROL, 10);
  }

  // ---------- The first-line hint ----------

  predicate IsHash(c: char) { c == '#' }

  /** The first line without a Markdown heading marker: one to six hashes before whitespace. */
  function WithoutHeading(line: string): string
  {
    var rest := DropWhile(line, IsHash);
    var hashes := |line| - |rest|;
    if 1 <= hashes <= 6 then
      if rest == "" then "" else if IsWhitespace(rest[0]) then TrimStart(rest) else line
    else line
  }

  predicate HasAsciiArrow(s: string) { Contains(s, " -> ") }

  /** Endings that mark the start of a sentence rather than a title. */
  predicate EndsAsClause(s: string)
  {
    && s != ""
    && var last := s[|s| - 1];
       || last == ':' || last == ',' || last == '\U{2026}'
       || (|s| >= 3 && last == '.' && s[|s| - 2] == '.' && s[|s| - 3] == '.')
  }

  predicate HasBody(lines: seq<string>) { exists l :: l in lines && Trim(l) != "" }

  /** The line as it would be stored: collapsed, arrows normalised. */
  function HintLine(message: string): Option<string>
  {
    var lines := Lines(Trim(message));
    if lines == [] then None
    else
      var first := WithoutHeading(Trim(lines[0]));
      if first == "" then None else Some(Rewrite(Collapse(first)))
  }

  predicate Accepts(first: string, hasBody: bool)
  {
    && ((HasAsciiArrow(first) && |first| <= HINT_ARROW_MAX_CHARS) || (|Words(first)| <= 8 && |first| <= 48 && hasBody))
    && !EndsAsClause(first)
  }

  method FirstLineTitleHint(message: string) returns (hint: Option<string>)
    ensures hint.Some? <==>
            && HintLine(message).Some?
            && Accepts(HintLine(message).value, HasBody(Lines(Trim(message))[1..]))
            && TrimTail(RemoveControl(HintLine(message).value)) != ""
    ensures hint.Some? ==> hint.value == TrimTail(RemoveControl(HintLine(message).value))
    ensures hint.Some? ==> 0 < |hint.value| <= HINT_ARROW_MAX_CHARS && !BadEnd(hint.value)
  {
    hide Trim, Lines, WithoutHeading, HasBody, Accepts, BadEnd;
    hide Collapse, Rewrite, RemoveControl, TrimTail, HasSpacedArrow, CanonicalTitle;
    var lines := Lines(Trim(message));
    if lines == [] { return None; }
    var stripped := WithoutHeading(Trim(lines[0]));
    if stripped == "" { return None; }
    var first := NormalizeArrows(Collapse(stripped));
    if !Accepts(first, HasBody(lines[1..])) { return None; }
    AcceptedHint(stripped, HasBody(lines[1..]));
    var title := CanonicalizeTitle(first, HINT_ARROW_MAX_CHARS);
    if title == "" { return None; }
    return Some(title);
  }

  lemma AcceptedHint(line: string, hasBody: bool)
    requires Accepts(Rewrite(Collapse(line)), hasBody)
    ensures var first := Rewrite(Collapse(line));
      var title := TrimTail(RemoveControl(first));
      && CanonicalTitle(first, HINT_ARROW_MAX_CHARS) == title
      && |title| <= HINT_ARROW_MAX_CHARS
      && (title != "" ==> !BadEnd(title))
  {
    HintIsNotCapped(line);
    hide Collapse, Rewrite, CanonicalTitle, HasAsciiArrow, Words, EndsAsClause;
    RemoveControlAll(Rewrite(Collapse(line)));
  }

  /** For a line no longer than the cap, canonicalising it again only drops control characters and
      trims the tail: the cap truncates nothing. */
  lemma HintIsNotCapped(line: string)
    requires |Rewrite(Collapse(line))| <= HINT_ARROW_MAX_CHARS
    ensures var first := Rewrite(Collapse(line));
      CanonicalTitle(first, HINT_ARROW_MAX_CHARS) == TrimTail(RemoveControl(first))
  {
    var c := Collapse(line);
    var first := Rewrite(c);
    CollapseIsTidy(line);
    RewriteKeepsTidy(c);
    TidyIsCollapsed(first);
    ScanIsRewrite(c, 0);
    assert c[0..] == c;
    ScanLeavesNone(false, c);
    ScanIsRewrite(first, 0);
    assert first[0..] == first;
    ScanWithoutArrows(false, first);
    RemoveControlAll(first);
  }

  // ---------- What makes a hint ----------

  ghost predicate EndsWith(s: string, e: string) { |e| <= |s| && s[|s| - |e|..] == e }

  const CLAUSE_ENDS: seq<string> := [":", ",", "...", "\U{2026}"]

  lemma EndsWithOne(s: string, c: char)
    ensures EndsWith(s, [c]) <==> s != "" && s[|s| - 1] == c
  {
    if s != "" { assert s[|s| - 1..] == [s[|s| - 1]]; }
  }

  lemma EndsWithThree(s: string, c: char)
    ensures EndsWith(s, [c, c, c]) <==> |s| >= 3 && s[|s| - 1] == c && s[|s| - 2] == c && s[|s| - 3] == c
  {
    if |s| >= 3 { assert s[|s| - 3..] == [s[|s| - 3], s[|s| - 2], s[|s| - 1]]; }
  }

  lemma EndsAsClauseIff(s: string)
    ensures EndsAsClause(s) <==> exists i :: 0 <= i < |CLAUSE_ENDS| && EndsWith(s, CLAUSE_ENDS[i])
  {
    EndsWithOne(s, ':');
    EndsWithOne(s, ',');
    EndsWithOne(s, '\U{2026}');
    EndsWithThree(s, '.');
    hide EndsWith;
    assert CLAUSE_ENDS[0] == [':'] && CLAUSE_ENDS[1] == [','];
    assert CLAUSE_ENDS[2] == ['.', '.', '.'] && CLAUSE_ENDS[3] == ['\U{2026}'];
  }

  const TITLE_ENDS: seq<string> := [".", ",", ":", ";", " ", " ->", " -"]

  lemma EndsWithArrow(s: string)
    ensures EndsWith(s, [' ', '-', '>']) <==> EndsInArrow(s)
    ensures EndsWith(s, [' ', '-']) <==> EndsInDash(s)
  {
    if |s| >= 3 { assert s[|s| - 3..] == [s[|s| - 3], s[|s| - 2], s[|s| - 1]]; }
    if |s| >= 2 { assert s[|s| - 2..] == [s[|s| - 2], s[|s| - 1]]; }
  }

  /** What a title may not end in: the listed punctuation, a space, or part of an arrow. */
  lemma BadEndIff(s: string)
    ensures BadEnd(s) <==> exists i :: 0 <= i < |TITLE_ENDS| && EndsWith(s, TITLE_ENDS[i])
  {
    var ends := TITLE_ENDS;
    forall c { EndsWithOne(s, c); }
    EndsWithArrow(s);
    hide EndsWith, EndsInArrow, EndsInDash;
    assert ends[0] == ['.'] && ends[1] == [','] && ends[2] == [':'] && ends[3] == [';'] && ends[4] == [' '];
    assert ends[5] == [' ', '-', '>'] && ends[6] == [' ', '-'];
  }

  /** A line is accepted exactly when it contains " -> " and has at most 100 characters, or has at most
      8 words and 48 characters with a body after it, and does not end like the start of a sentence. */
  lemma AcceptsIff(first: string, hasBody: bool)
    ensures Accepts(first, hasBody) <==>
            && ((Mentions(first, " -> ") && |first| <= 100) || (|Words(first)| <= 8 && |first| <= 48 && hasBody))
            && !exists i :: 0 <= i < |CLAUSE_ENDS| && EndsWith(first, CLAUSE_ENDS[i])
  {
    ContainsIff(first, " -> ");
    EndsAsClauseIff(first);
    hide EndsAsClause, Mentions, Contains, Words, EndsWith;
  }

  function Hashes(k: nat): (h: string)
    ensures |h| == k && forall i :: 0 <= i < k ==> h[i] == '#'
  {
    seq(k, _ => '#')
  }

  lemma HashesDropped(k: nat, rest: string)
    requires rest == "" || rest[0] != '#'
    ensures DropWhile(Hashes(k) + rest, IsHash) == rest
  {
    DropWhilePrefix(Hashes(k), rest, IsHash);
  }

  /** One to six hashes before whitespace are a heading marker and go, with the whitespace; alone on the
      line they leave nothing. */
  lemma HeadingStripped(k: nat, gap: string, title: string)
    requires 1 <= k <= 6 && AllWhitespace(gap) && (gap == "" ==> title == "")
    requires title == "" || !IsWhitespace(title[0])
    ensures WithoutHeading(Hashes(k) + (gap + title)) == title
  {
    var rest := gap + title;
    if gap != "" { AppendHead(gap, title); }
    HashesDropped(k, rest);
    DropWhilePrefix(gap, title, IsWhitespace);
  }

  /** Any other run of hashes is content. */
  lemma OtherHashesKept(k: nat, rest: string)
    requires rest == "" || rest[0] != '#'
    requires k == 0 || k > 6 || (rest != "" && !IsWhitespace(rest[0]))
    ensures WithoutHeading(Hashes(k) + rest) == Hashes(k) + rest
  {
    HashesDropped(k, rest);
  }

  /** A short tidy first line with a body after it is its own hint. */
  lemma PlainTitleIsHint(title: string, body: string)
    requires Settled(title) && !BadEnd(title) && title != "" && IsLine(title) && title[0] != '#'
    requires |Words(title)| <= 8 && |title| <= 48 && !EndsAsClause(title)
    requires !AllWhitespace(body)
    ensures HintLine(title + "\n" + body) == Some(title)
    ensures Accepts(title, HasBody(Lines(Trim(title + "\n" + body))[1..]))
    ensures TrimTail(RemoveControl(title)) == title
  {
    hide BadEnd, EndsAsClause, Words, Accepts, WithoutHeading, IsLine, Lines, HasBody;
    TidyEnds(title);
    var kept := TrimmedMessage(title, body);
    LinesCons(title, kept);
    AppendHead([title], Lines(kept));
    AppendEmpty(Lines(kept));
    BodyStays(kept);
    AcceptsShort(title, HasBody(Lines(kept)));
    AppendEmpty(title);
    OtherHashesKept(0, title);
    assert Hashes(0) == "";
    SettledRewrites(title);
    TrimOfTidy(title);
  }

  lemma AcceptsShort(first: string, hasBody: bool)
    requires |Words(first)| <= 8 && |first| <= 48 && hasBody && !EndsAsClause(first)
    ensures Accepts(first, hasBody)
  {}

  lemma {:induction false} TidyFromEnds(a: bool, s: string)
    requires TidyFrom(a, s) && s != ""
    ensures !IsWhitespace(s[|s| - 1])
    decreases |s|
  {
    if |s| > 1 {
      TidyFromEnds(IsWhitespace(s[0]), s[1..]);
      assert s[1..][|s| - 2] == s[|s| - 1];
    }
  }

  lemma TidyEnds(s: string)
    requires Tidy(s) && s != ""
    ensures !IsWhitespace(s[0]) && !IsWhitespace(s[|s| - 1])
  {
    TidyFromEnds(true, s);
  }

  lemma TrimOfTidy(s: string)
    requires s != "" && !IsWhitespace(s[0]) && !IsWhitespace(s[|s| - 1])
    ensures Trim(s) == s
  {
    DropWhileStops(s, IsWhitespace);
  }

  lemma SettledRewrites(s: string)
    requires Settled(s) && !BadEnd(s)
    ensures Rewrite(Collapse(s)) == s && TrimTail(RemoveControl(s)) == s
  {
    TidyIsCollapsed(s);
    ScanIsRewrite(s, 0);
    assert s[0..] == s;
    ScanWithoutArrows(false, s);
    RemoveControlNothing(s);
    hide Collapse, Rewrite, RemoveControl, BadEnd;
  }

  /** Trimming a message keeps its first line and the start of its body. */
  lemma TrimmedMessage(title: string, body: string) returns (kept: string)
    requires title != "" && !IsWhitespace(title[0]) && !AllWhitespace(body)
    ensures Trim(title + "\n" + body) == title + "\n" + kept && !AllWhitespace(kept)
  {
    var m := title + "\n" + body;
    var lead := title + "\n";
    assert m[0] == title[0];
    DropWhileStops(m, IsWhitespace);
    var t := Trim(m);
    var i :| 0 <= i < |body| && !IsWhitespace(body[i]);
    assert m[|lead| + i] == body[i];
    assert |t| > |lead| + i;
    kept := t[|lead|..];
    assert t == m[..|t|];
    assert kept == body[..|kept|];
    assert t[..|lead|] == lead;
    assert kept[i] == body[i];
  }

  /** Text that is not blank has a line that is not blank. */
  lemma {:induction false} BodyStays(s: string)
    requires !AllWhitespace(s)
    ensures HasBody(Lines(s))
    decreases |s|
  {
    var n := LineLength(s);
    if n == |s| {
      TrimBlankIff(s);
      assert s in [s];
    } else {
      var line := StripCarriageReturn(s[..n]);
      if AllWhitespace(line) {
        assert AllWhitespace(s[..n]) by {
          forall i | 0 <= i < n ensures IsWhitespace(s[..n][i]) {
            if i < |line| { assert line[i] == s[i]; }
          }
        }
        RestNotBlank(s, n);
        BodyStays(s[n + 1..]);
        var l :| l in Lines(s[n + 1..]) && Trim(l) != "";
        assert l in Lines(s);
      } else {
        TrimBlankIff(line);
        assert line in Lines(s);
      }
    }
  }

  lemma RestNotBlank(s: string, n: nat)
    requires n < |s| && s[n] == '\n' && AllWhitespace(s[..n]) && !AllWhitespace(s)
    ensures !AllWhitespace(s[n + 1..])
  {
    var i :| 0 <= i < |s| && !IsWhitespace(s[i]);
    assert s[n + 1..][i - n - 1] == s[i];
  }
}
