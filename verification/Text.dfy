/** Characters, search, trimming and line splitting as Rust's `str` methods define them.
    A `string` here is the sequence of Unicode scalar values of the Rust string. */
module Text {

  datatype Option<+T> = None | Some(value: T)

  predicate IsDigit(c: char) { '0' <= c <= '9' }

  // Unicode White_Space, which char::is_whitespace tests.
  predicate IsWhitespace(c: char)
  {
    || '\U{0009}' <= c <= '\U{000D}'
    || c == ' '
    || c == '\U{0085}'
    || c == '\U{00A0}'
    || c == '\U{1680}'
    || '\U{2000}' <= c <= '\U{200A}'
    || c == '\U{2028}'
    || c == '\U{2029}'
    || c == '\U{202F}'
    || c == '\U{205F}'
    || c == '\U{3000}'
  }

  // Unicode category Cc, which char::is_control tests.
  predicate IsControl(c: char) { c <= '\U{001F}' || '\U{007F}' <= c <= '\U{009F}' }

  /** A concatenation starts with the first element of its left part. */
  lemma AppendHead<T>(x: seq<T>, y: seq<T>)
    requires x != []
    ensures x + y != [] && (x + y)[0] == x[0] && (x + y)[1..] == x[1..] + y
    ensures [x[0]] + (x[1..] + y) == x + y && [x[0]] + x[1..] == x
  {}

  lemma AppendEmpty<T>(x: seq<T>)
    ensures x + [] == x && [] + x == x
  {}

  lemma PrefixAndRest<T>(p: seq<T>, rest: seq<T>)
    ensures p <= p + rest && (p + rest)[|p|..] == rest
  {}

  lemma AppendAssoc<T>(x: seq<T>, y: seq<T>, z: seq<T>)
    ensures x + (y + z) == (x + y) + z
  {}

  lemma InHeadOrTail<T>(x: T, s: seq<T>)
    requires s != []
    ensures x in s <==> x == s[0] || x in s[1..]
  {}

  // ---------- Decimal digits ----------

  function DigitOf(c: char): nat
    requires IsDigit(c)
  {
    c as int - '0' as int
  }

  ghost predicate AllDigits(s: string) { forall i :: 0 <= i < |s| ==> IsDigit(s[i]) }

  function Value(s: string): nat
    requires AllDigits(s)
  {
    if s == "" then 0 else 10 * Value(s[..|s| - 1]) + DigitOf(s[|s| - 1])
  }

  lemma ValueOfTwo(a: char, b: char)
    requires IsDigit(a) && IsDigit(b)
    ensures Value([a]) == DigitOf(a)
    ensures Value([a, b]) == 10 * DigitOf(a) + DigitOf(b)
  {
    assert [a][..0] == "";
    assert [a, b][..1] == [a];
  }

  function DigitChar(n: nat): (c: char)
    requires n < 10
    ensures IsDigit(c) && DigitOf(c) == n
  {
    ('0' as int + n) as char
  }

  // ---------- Search ----------

  predicate Contains(s: string, p: string)
  {
    p <= s || (s != "" && Contains(s[1..], p))
  }

  /** `str::find`: the first position where `p` occurs. */
  function Find(s: string, p: string): Option<nat>
  {
    if p <= s then Some(0)
    else if s == "" then None
    else match Find(s[1..], p) case None => None case Some(i) => Some(i + 1)
  }

  lemma {:induction false} FindSound(s: string, p: string)
    ensures Find(s, p).Some? <==> Contains(s, p)
    ensures Find(s, p).Some? ==> Find(s, p).value <= |s| && p <= s[Find(s, p).value..]
    ensures Find(s, p).Some? ==> forall j :: 0 <= j < Find(s, p).value ==> !(p <= s[j..])
  {
    if p <= s {
      assert s[0..] == s;
    } else if s != "" {
      FindSound(s[1..], p);
      forall i | 1 <= i <= |s| ensures s[i..] == s[1..][i - 1..] {}
      if Find(s, p).Some? {
        var k := Find(s[1..], p).value;
        forall j | 0 <= j < k + 1 ensures !(p <= s[j..]) {
          if j == 0 { assert s[0..] == s; } else { assert s[j..] == s[1..][j - 1..]; }
        }
      }
    }
  }

  ghost predicate StandsAt(s: string, p: string, i: int) { 0 <= i <= |s| && p <= s[i..] }

  /** `p` stands somewhere in `s`. */
  ghost predicate Mentions(s: string, p: string) { exists i :: StandsAt(s, p, i) }

  lemma StandsInTail(s: string, p: string, i: int)
    requires s != ""
    ensures i > 0 ==> (StandsAt(s, p, i) <==> StandsAt(s[1..], p, i - 1))
    ensures StandsAt(s, p, 0) <==> p <= s
  {
    assert s[0..] == s;
    if 0 < i <= |s| { assert s[1..][i - 1..] == s[i..]; }
  }

  lemma {:induction false} ContainsIff(s: string, p: string)
    ensures Contains(s, p) <==> Mentions(s, p)
  {
    if s == "" {
      assert StandsAt(s, p, 0) <==> p <= s;
    } else {
      ContainsIff(s[1..], p);
      hide StandsAt;
      StandsInTail(s, p, 0);
      if Mentions(s[1..], p) {
        var i :| StandsAt(s[1..], p, i);
        StandsBounds(s[1..], p, i);
        StandsInTail(s, p, i + 1);
        assert StandsAt(s, p, i + 1);
      }
      if Mentions(s, p) {
        var i :| StandsAt(s, p, i);
        StandsBounds(s, p, i);
        StandsInTail(s, p, i);
      }
    }
  }

  lemma StandsBounds(s: string, p: string, i: int)
    requires StandsAt(s, p, i)
    ensures 0 <= i <= |s|
  {}

  // ---------- Trimming ----------

  /** `trim_start_matches`: drop leading characters that satisfy `f`. */
  function DropWhile(s: string, f: char -> bool): (r: string)
    ensures |r| <= |s| && r == s[|s| - |r|..]
    ensures r != "" ==> !f(r[0])
    ensures forall i :: 0 <= i < |s| - |r| ==> f(s[i])
  {
    if s != "" && f(s[0]) then DropWhile(s[1..], f) else s
  }

  /** `trim_end_matches`: drop trailing characters that satisfy `f`. */
  function DropLastWhile(s: string, f: char -> bool): (r: string)
    ensures r <= s
    ensures r != "" ==> !f(r[|r| - 1])
    ensures forall i :: |r| <= i < |s| ==> f(s[i])
  {
    if s != "" && f(s[|s| - 1]) then DropLastWhile(s[..|s| - 1], f) else s
  }

  function TrimStart(s: string): string { DropWhile(s, IsWhitespace) }

  function Trim(s: string): string { DropLastWhile(DropWhile(s, IsWhitespace), IsWhitespace) }

  ghost predicate AllWhitespace(s: string) { forall i :: 0 <= i < |s| ==> IsWhitespace(s[i]) }

  lemma TrimBlankIff(s: string)
    ensures Trim(s) == "" <==> AllWhitespace(s)
  {
    var d := DropWhile(s, IsWhitespace);
    if d != "" { assert Trim(s)[..1] == d[..1] by { assert !IsWhitespace(d[0]); } }
  }

  // ---------- Lines ----------

  /** Number of characters before the first newline. */
  function LineLength(s: string): (n: nat)
    ensures n <= |s|
    ensures n < |s| ==> s[n] == '\n'
    ensures forall i :: 0 <= i < n ==> s[i] != '\n'
  {
    if s == "" || s[0] == '\n' then 0 else 1 + LineLength(s[1..])
  }

  function StripCarriageReturn(s: string): string
  {
    if s != "" && s[|s| - 1] == '\r' then s[..|s| - 1] else s
  }

  /** `str::lines`: lines end in "\n" or "\r\n"; a final line end opens no further line. */
  function Lines(s: string): seq<string>
    decreases |s|
  {
    if s == "" then []
    else
      var n := LineLength(s);
      if n == |s| then [s] else [StripCarriageReturn(s[..n])] + Lines(s[n + 1..])
  }

  /** Each line followed by a newline. */
  function Unlines(ls: seq<string>): string
  {
    if ls == [] then "" else ls[0] + "\n" + Unlines(ls[1..])
  }

  /** A line that splitting gives back unchanged. */
  ghost predicate IsLine(l: string) { '\n' !in l && (l != "" ==> l[|l| - 1] != '\r') }

  ghost predicate AreLines(ls: seq<string>) { forall i :: 0 <= i < |ls| ==> IsLine(ls[i]) }

  lemma LineLengthAt(l: string, rest: string)
    requires '\n' !in l
    ensures LineLength(l + "\n" + rest) == |l|
  {
    var s := l + "\n" + rest;
    assert s[|l|] == '\n';
    assert forall i :: 0 <= i < |l| ==> s[i] == l[i];
  }

  lemma LinesCons(l: string, rest: string)
    requires IsLine(l)
    ensures Lines(l + "\n" + rest) == [l] + Lines(rest)
  {
    var s := l + "\n" + rest;
    LineLengthAt(l, rest);
    assert s[..|l|] == l;
    assert s[|l| + 1..] == rest;
  }

  /** A carriage return before the newline belongs to the line end. */
  lemma LinesOfCrLf(l: string, rest: string)
    requires '\n' !in l
    ensures Lines(l + "\r" + "\n" + rest) == [l] + Lines(rest)
  {
    var s := l + "\r" + "\n" + rest;
    LineLengthAt(l + "\r", rest);
    assert s[..|l| + 1] == l + "\r";
    assert s[|l| + 2..] == rest;
    assert (l + "\r")[..|l|] == l;
  }

  /** Writing lines and splitting the text again is the identity, with any text after them. */
  lemma {:induction false} LinesOfUnlines(ls: seq<string>, rest: string)
    requires AreLines(ls)
    ensures Lines(Unlines(ls) + rest) == ls + Lines(rest)
  {
    if ls == [] {
      AppendEmpty(rest);
      AppendEmpty(Lines(rest));
    } else {
      UnlinesHead(ls, rest);
      hide Lines, Unlines;
      LinesCons(ls[0], Unlines(ls[1..]) + rest);
      LinesOfUnlines(ls[1..], rest);
      AppendHead(ls, Lines(rest));
    }
  }

  lemma UnlinesHead(ls: seq<string>, rest: string)
    requires ls != []
    ensures Unlines(ls) + rest == ls[0] + "\n" + (Unlines(ls[1..]) + rest)
  {
    AppendAssoc(ls[0] + "\n", Unlines(ls[1..]), rest);
  }

  lemma DropWhileStops(s: string, f: char -> bool)
    requires s == "" || !f(s[0])
    ensures DropWhile(s, f) == s
  {}

  lemma {:induction false} DropWhilePrefix(p: string, s: string, f: char -> bool)
    requires forall i :: 0 <= i < |p| ==> f(p[i])
    requires s == "" || !f(s[0])
    ensures DropWhile(p + s, f) == s
  {
    if p == "" {
      assert p + s == s;
    } else {
      assert (p + s)[1..] == p[1..] + s;
      DropWhilePrefix(p[1..], s, f);
    }
  }
}
