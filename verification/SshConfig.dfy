/** The SSH config file the desktop bridge keeps: one Host block per alias, rewritten on each update. */
module SshConfig {
  import opened Text

  // ---------- The file as lines ----------

  const HOST := "Host "

  function Marker(alias: string): string { HOST + alias }

  predicate IsIndented(line: string) { line != "" && (line[0] == ' ' || line[0] == '\t') }

  /** A line that ends the block being skipped. */
  predicate EndsSkip(line: string)
  {
    HOST <= line || (!IsIndented(line) && Trim(line) != "")
  }

  /** The lines kept when the blocks of one host are dropped. */
  function Keep(lines: seq<string>, marker: string, skip: bool): seq<string>
    decreases |lines|
  {
    if lines == [] then []
    else if Trim(lines[0]) == marker then Keep(lines[1..], marker, true)
    else if skip && !EndsSkip(lines[0]) then Keep(lines[1..], marker, true)
    else [lines[0]] + Keep(lines[1..], marker, false)
  }

  /** Replace the block of `alias`, or append it. */
  method ReplaceHostBlock(config: string, alias: string, block: string) returns (result: string)
    ensures result == Unlines(Keep(Lines(config), Marker(alias), false)) + block
  {
    hide Trim, Lines, EndsSkip;
    var marker := Marker(alias);
    var lines := Lines(config);
    result := "";
    var skip := false;
    var i := 0;
    assert lines[0..] == lines;
    assert "" + Unlines(Keep(lines, marker, false)) == Unlines(Keep(lines, marker, false));
    while i < |lines|
      invariant 0 <= i <= |lines|
      invariant result + Unlines(Keep(lines[i..], marker, skip)) == Unlines(Keep(lines, marker, false))
    {
      var line := lines[i];
      assert lines[i..][0] == line && lines[i..][1..] == lines[i + 1..];
      i := i + 1;
      if Trim(line) == marker {
        skip := true;
      } else if !skip || EndsSkip(line) {
        skip := false;
        ghost var kept := Keep(lines[i..], marker, false);
        assert ([line] + kept)[1..] == kept;
        assert Unlines([line] + kept) == line + "\n" + Unlines(kept);
        assert result + (line + "\n" + Unlines(kept)) == (result + line + "\n") + Unlines(kept);
        result := result + line + "\n";
      }
    }
    assert result + "" == result;
    result := result + block;
  }

  // ---------- Entries ----------

  /** Decimal notation of a port. */
  function Decimal(n: nat): (s: string)
    ensures s != "" && AllDigits(s) && Value(s) == n
  {
    if n < 10 then ValueOfTwo(DigitChar(n), '0'); [DigitChar(n)]
    else
      var s := Decimal(n / 10) + [DigitChar(n % 10)];
      assert s[..|s| - 1] == Decimal(n / 10);
      s
  }

  datatype Entry = Entry(alias: string, port: nat, key: string)

  const INDENT := "    "
  const PORT := "Port "
  const IDENTITY := "IdentityFile "
  const KNOWN_HOSTS := "UserKnownHostsFile "

  function Body(e: Entry, knownHosts: string): seq<string>
  {
    [INDENT + "HostName 127.0.0.1", INDENT + (PORT + Decimal(e.port)), INDENT + "User bettercoding",
     INDENT + (IDENTITY + e.key), INDENT + "StrictHostKeyChecking no", INDENT + (KNOWN_HOSTS + knownHosts)]
  }

  function EntryLines(e: Entry, knownHosts: string): seq<string> { ["", Marker(e.alias)] + Body(e, knownHosts) }

  /** A non-empty alias on one line, without whitespace at its ends. */
  ghost predicate IsAlias(a: string)
  {
    a != "" && '\n' !in a && !IsWhitespace(a[0]) && !IsWhitespace(a[|a| - 1])
  }

  ghost predicate WellFormed(e: Entry) { IsAlias(e.alias) && IsLine(e.key) }

  /** What the config says after an update. */
  function Updated(config: string, e: Entry, knownHosts: string): string
  {
    Unlines(Keep(Lines(config), Marker(e.alias), false)) + Unlines(EntryLines(e, knownHosts))
  }

  class ConfigFile {
    var text: string

    constructor ()
      ensures text == ""
    {
      text := "";
    }

    method UpdateSshConfig(e: Entry, knownHosts: string)
      modifies this
      ensures text == Updated(old(text), e, knownHosts)
    {
      text := ReplaceHostBlock(text, e.alias, Unlines(EntryLines(e, knownHosts)));
    }
  }

  // ---------- Reading the blocks ----------

  datatype Block = Block(alias: string, body: seq<string>)

  /** A line read in front of what follows it: blank lines count for nothing, a Host line takes the
      loose lines as its body. */
  function ReadLine(line: string, rest: (seq<string>, seq<Block>)): (seq<string>, seq<Block>)
  {
    if Trim(line) == "" then rest
    else if HOST <= line then ([], [Block(line[|HOST|..], rest.0)] + rest.1)
    else ([line] + rest.0, rest.1)
  }

  /** The non-blank lines before the first Host line, and the blocks after them. */
  function Read(lines: seq<string>): (seq<string>, seq<Block>)
  {
    if lines == [] then ([], []) else ReadLine(lines[0], Read(lines[1..]))
  }

  function WithoutAlias(blocks: seq<Block>, alias: string): seq<Block>
  {
    if blocks == [] then []
    else (if blocks[0].alias == alias then [] else [blocks[0]]) + WithoutAlias(blocks[1..], alias)
  }

  /** The lines this file can hold: blank, a Host line for an alias, or an indented setting. */
  ghost predicate IsBlank(line: string) { Trim(line) == "" && !(HOST <= line) }

  ghost predicate IsHostLine(line: string) { exists a :: IsAlias(a) && line == Marker(a) }

  ghost predicate IsSetting(line: string) { IsIndented(line) && Trim(line) != "" && !(HOST <= Trim(line)) }

  ghost predicate Clean(lines: seq<string>)
  {
    forall i :: 0 <= i < |lines| ==> IsCleanLine(lines[i])
  }

  ghost predicate IsCleanLine(line: string)
  {
    IsLine(line) && (IsBlank(line) || IsHostLine(line) || IsSetting(line))
  }

  lemma MarkerShape(a: string)
    requires IsAlias(a)
    ensures Trim(Marker(a)) == Marker(a) && IsLine(Marker(a)) && HOST <= Marker(a) && Marker(a)[|HOST|..] == a
    ensures Marker(a) != ""
  {
    var s := Marker(a);
    assert s[0] == 'H' && s[|s| - 1] == a[|a| - 1];
    DropWhileStops(s, IsWhitespace);
  }

  lemma SameMarker(a: string, b: string)
    requires Marker(a) == Marker(b)
    ensures a == b
  {
    assert Marker(a)[|HOST|..] == a && Marker(b)[|HOST|..] == b;
  }

  lemma IndentedIsNotHost(line: string)
    requires IsIndented(line)
    ensures !(HOST <= line)
  {}

  lemma ReadCons(line: string, rest: seq<string>)
    ensures Read([line] + rest) == ReadLine(line, Read(rest))
  {
    AppendHead([line], rest);
    AppendEmpty(rest);
  }

  lemma KeepHost(a: string, rest: seq<string>, alias: string, skip: bool)
    requires IsAlias(a) && IsAlias(alias)
    ensures Keep([Marker(a)] + rest, Marker(alias), skip) ==
            if a == alias then Keep(rest, Marker(alias), true) else [Marker(a)] + Keep(rest, Marker(alias), false)
  {
    var lines := [Marker(a)] + rest;
    assert lines[0] == Marker(a) && lines[1..] == rest;
    MarkerShape(a);
    if Marker(a) == Marker(alias) { SameMarker(a, alias); }
    hide Trim, IsAlias, Marker;
  }

  lemma KeepOther(line: string, rest: seq<string>, alias: string, skip: bool)
    requires IsBlank(line) || IsSetting(line)
    ensures Keep([line] + rest, Marker(alias), skip) ==
            if skip then Keep(rest, Marker(alias), true) else [line] + Keep(rest, Marker(alias), false)
  {
    var lines := [line] + rest;
    assert lines[0] == line && lines[1..] == rest;
    assert HOST <= Marker(alias);
    hide Trim;
    assert Trim(line) != Marker(alias);
    if IsSetting(line) { IndentedIsNotHost(line); }
    assert !EndsSkip(line);
  }

  lemma WithoutCons(b: Block, blocks: seq<Block>, alias: string)
    ensures WithoutAlias([b] + blocks, alias) == (if b.alias == alias then [] else [b]) + WithoutAlias(blocks, alias)
  {
    assert ([b] + blocks)[1..] == blocks;
  }

  lemma ReadHost(a: string, rest: seq<string>)
    requires IsAlias(a)
    ensures Read([Marker(a)] + rest) == ([], [Block(a, Read(rest).0)] + Read(rest).1)
  {
    MarkerShape(a);
    hide Trim;
    ReadCons(Marker(a), rest);
  }

  lemma ReadOther(line: string, rest: seq<string>)
    requires IsBlank(line) || IsSetting(line)
    ensures Read([line] + rest) == ((if IsSetting(line) then [line] else []) + Read(rest).0, Read(rest).1)
  {
    hide Trim;
    ReadCons(line, rest);
    if IsSetting(line) { IndentedIsNotHost(line); }
    assert [] + Read(rest).0 == Read(rest).0;
  }

  lemma KeepReadsHost(a: string, rest: seq<string>, alias: string, skip: bool)
    requires IsAlias(a) && IsAlias(alias)
    requires forall k: bool ::
               Read(Keep(rest, Marker(alias), k)) ==
               (if k then [] else Read(rest).0, WithoutAlias(Read(rest).1, alias))
    ensures var lines := [Marker(a)] + rest;
      Read(Keep(lines, Marker(alias), skip)) == (if skip then [] else Read(lines).0, WithoutAlias(Read(lines).1, alias))
  {
    hide Keep, Read, WithoutAlias, IsAlias, Marker;
    KeepHost(a, rest, alias, skip);
    ReadHost(a, rest);
    ReadHost(a, Keep(rest, Marker(alias), false));
    WithoutCons(Block(a, Read(rest).0), Read(rest).1, alias);
    AppendEmpty(WithoutAlias(Read(rest).1, alias));
  }

  lemma KeepReadsOther(line: string, rest: seq<string>, alias: string, skip: bool)
    requires IsBlank(line) || IsSetting(line)
    requires forall k: bool ::
               Read(Keep(rest, Marker(alias), k)) ==
               (if k then [] else Read(rest).0, WithoutAlias(Read(rest).1, alias))
    ensures var lines := [line] + rest;
      Read(Keep(lines, Marker(alias), skip)) == (if skip then [] else Read(lines).0, WithoutAlias(Read(lines).1, alias))
  {
    hide Keep, Read, WithoutAlias, Marker, IsSetting, IsBlank;
    KeepOther(line, rest, alias, skip);
    ReadOther(line, rest);
    ReadOther(line, Keep(rest, Marker(alias), false));
  }

  /** Dropping a host's lines drops exactly its blocks; every other block keeps its settings and place. */
  lemma {:induction false} KeepReads(lines: seq<string>, alias: string, skip: bool)
    requires Clean(lines) && IsAlias(alias)
    ensures Read(Keep(lines, Marker(alias), skip)) ==
            (if skip then [] else Read(lines).0, WithoutAlias(Read(lines).1, alias))
    decreases |lines|
  {
    if lines != [] {
      hide Keep, Read, WithoutAlias, IsAlias, Marker, IsSetting, IsBlank, IsLine;
      var line, rest := lines[0], lines[1..];
      AppendHead(lines, []);
      assert IsCleanLine(line);
      KeepReads(rest, alias, true);
      KeepReads(rest, alias, false);
      if IsHostLine(line) {
        var a :| IsAlias(a) && line == Marker(a);
        KeepReadsHost(a, rest, alias, skip);
      } else {
        KeepReadsOther(line, rest, alias, skip);
      }
    }
  }

  lemma KeepStep(lines: seq<string>, marker: string, skip: bool)
    requires lines != []
    ensures var kept := Keep(lines, marker, skip);
      || kept == Keep(lines[1..], marker, true)
      || (Trim(lines[0]) != marker && kept == [lines[0]] + Keep(lines[1..], marker, false))
  {
    hide Trim, EndsSkip;
  }

  lemma CleanParts(lines: seq<string>)
    requires Clean(lines) && lines != []
    ensures IsCleanLine(lines[0]) && Clean(lines[1..])
  {
    hide IsCleanLine;
  }

  lemma CleanCons(line: string, rest: seq<string>)
    ensures IsCleanLine(line) && Clean(rest) ==> Clean([line] + rest)
  {
    hide IsCleanLine;
  }

  lemma {:induction false} KeepClean(lines: seq<string>, marker: string, skip: bool)
    requires Clean(lines)
    ensures Clean(Keep(lines, marker, skip))
    decreases |lines|
  {
    if lines != [] {
      KeepStep(lines, marker, skip);
      CleanParts(lines);
      hide Trim, IsCleanLine, EndsSkip, Keep, Clean;
      CleanCons(lines[0], Keep(lines[1..], marker, false));
      KeepClean(lines[1..], marker, true);
      KeepClean(lines[1..], marker, false);
    }
  }

  // ---------- Updates ----------

  predicate SettingText(text: string)
  {
    text != "" && !IsWhitespace(text[0]) && '\n' !in text && text[|text| - 1] != '\r' && !(HOST <= text)
  }

  lemma SettingShape(text: string)
    requires SettingText(text)
    ensures IsSetting(INDENT + text) && IsLine(INDENT + text)
  {
    var s := INDENT + text;
    assert s[|s| - 1] == text[|text| - 1] && s[0] == ' ';
    DropWhilePrefix(INDENT, text, IsWhitespace);
    var t := Trim(s);
    assert t <= text;
    assert HOST <= t ==> HOST <= text;
  }

  lemma ValueShape(key: string, value: string)
    requires key in {PORT, IDENTITY, KNOWN_HOSTS} && IsLine(value)
    ensures SettingText(key + value)
  {
    var text := key + value;
    assert text[0] == key[0] && key[0] != 'H';
    assert HOST[0] == 'H';
    if value == "" { assert text == key; } else { assert text[|text| - 1] == value[|value| - 1]; }
  }

  lemma FixedShape()
    ensures SettingText("HostName 127.0.0.1")
    ensures SettingText("User bettercoding")
    ensures SettingText("StrictHostKeyChecking no")
  {
    assert HOST[0] == 'H' && HOST[4] == ' ';
    assert "HostName 127.0.0.1"[4] == 'N' && "User bettercoding"[0] == 'U' && "StrictHostKeyChecking no"[0] == 'S';
  }

  ghost predicate AllSettings(body: seq<string>)
  {
    forall i :: 0 <= i < |body| ==> IsSetting(body[i]) && IsLine(body[i])
  }

  lemma SixSettings(a: string, b: string, c: string, d: string, e: string, f: string)
    requires IsSetting(a) && IsSetting(b) && IsSetting(c) && IsSetting(d) && IsSetting(e) && IsSetting(f)
    requires IsLine(a) && IsLine(b) && IsLine(c) && IsLine(d) && IsLine(e) && IsLine(f)
    ensures AllSettings([a, b, c, d, e, f])
  {
    hide IsSetting, IsLine;
  }

  lemma BodyIsSettings(e: Entry, knownHosts: string)
    requires WellFormed(e) && IsLine(knownHosts)
    ensures AllSettings(Body(e, knownHosts))
  {
    hide IsSetting, IsLine, IsAlias, AllSettings, SettingText;
    FixedShape();
    DigitsAreLine(Decimal(e.port));
    ValueShape(PORT, Decimal(e.port));
    ValueShape(IDENTITY, e.key);
    ValueShape(KNOWN_HOSTS, knownHosts);
    SettingShape("HostName 127.0.0.1");
    SettingShape(PORT + Decimal(e.port));
    SettingShape("User bettercoding");
    SettingShape(IDENTITY + e.key);
    SettingShape("StrictHostKeyChecking no");
    SettingShape(KNOWN_HOSTS + knownHosts);
    SixSettings(INDENT + "HostName 127.0.0.1", INDENT + (PORT + Decimal(e.port)), INDENT + "User bettercoding",
                INDENT + (IDENTITY + e.key), INDENT + "StrictHostKeyChecking no", INDENT + (KNOWN_HOSTS + knownHosts));
  }

  lemma DigitsAreLine(s: string)
    requires AllDigits(s)
    ensures IsLine(s)
  {}

  lemma {:induction false} ReadSettings(body: seq<string>)
    requires AllSettings(body)
    ensures Read(body) == (body, [])
  {
    if body != [] {
      hide IsSetting, IsLine, Read;
      ReadSettings(body[1..]);
      AppendHead(body, []);
      ReadOther(body[0], body[1..]);
    }
  }

  lemma BlankIsBlank()
    ensures IsBlank("") && IsCleanLine("") && !IsSetting("")
  {}

  /** An entry's lines: a blank line, the Host line and the settings. */
  lemma EntryShape(e: Entry, knownHosts: string)
    ensures EntryLines(e, knownHosts) == [""] + ([Marker(e.alias)] + Body(e, knownHosts))
  {
    hide Marker, Body;
    assert ["", Marker(e.alias)] == [""] + [Marker(e.alias)];
  }

  lemma EntryReads(e: Entry, knownHosts: string)
    requires WellFormed(e) && IsLine(knownHosts)
    ensures Read(EntryLines(e, knownHosts)) == ([], [Block(e.alias, Body(e, knownHosts))])
  {
    BlankIsBlank();
    hide Body, IsSetting, Read, IsBlank, Marker, EntryLines, IsAlias, IsLine, AllSettings;
    var body := Body(e, knownHosts);
    EntryShape(e, knownHosts);
    BodyIsSettings(e, knownHosts);
    ReadSettings(body);
    ReadHost(e.alias, body);
    ReadOther("", [Marker(e.alias)] + body);
    AppendEmpty([Block(e.alias, body)]);
    AppendEmpty<string>([]);
  }

  lemma EntryIsClean(e: Entry, knownHosts: string)
    requires WellFormed(e) && IsLine(knownHosts)
    ensures Clean(EntryLines(e, knownHosts))
  {
    hide Body, IsSetting, IsBlank, Marker, IsAlias, IsLine;
    BlankIsBlank();
    BodyIsSettings(e, knownHosts);
    HostLineIsClean(e.alias);
    var body := Body(e, knownHosts);
    forall i | 0 <= i < |EntryLines(e, knownHosts)| ensures IsCleanLine(EntryLines(e, knownHosts)[i]) {
      if i >= 2 { assert EntryLines(e, knownHosts)[i] == body[i - 2]; }
    }
  }

  lemma HostLineIsClean(a: string)
    requires IsAlias(a)
    ensures IsCleanLine(Marker(a))
  {
    MarkerShape(a);
  }

  lemma ReadLineAppend(line: string, rest: (seq<string>, seq<Block>), more: seq<Block>)
    ensures ReadLine(line, (rest.0, rest.1 + more)) == (ReadLine(line, rest).0, ReadLine(line, rest).1 + more)
  {
    hide Trim;
    if HOST <= line { AppendHead([Block(line[|HOST|..], rest.0)] + rest.1, more); }
  }

  lemma {:induction false} ReadAppend(x: seq<string>, y: seq<string>)
    requires Read(y).0 == []
    ensures Read(x + y) == (Read(x).0, Read(x).1 + Read(y).1)
  {
    if x == [] {
      AppendEmpty(y);
      AppendEmpty(Read(y).1);
    } else {
      hide Read, ReadLine;
      AppendHead(x, y);
      AppendHead(x, []);
      ReadAppend(x[1..], y);
      ReadCons(x[0], x[1..] + y);
      ReadCons(x[0], x[1..]);
      ReadLineAppend(x[0], Read(x[1..]), Read(y).1);
    }
  }

  ghost function Blocks(text: string): seq<Block> { Read(Lines(text)).1 }

  /** A file this module writes: clean lines, all settings inside blocks. */
  ghost predicate Kept(text: string) { Clean(Lines(text)) && Read(Lines(text)).0 == [] }

  lemma UpdatedLines(text: string, e: Entry, knownHosts: string)
    requires Kept(text) && WellFormed(e) && IsLine(knownHosts)
    ensures Lines(Updated(text, e, knownHosts)) ==
            Keep(Lines(text), Marker(e.alias), false) + EntryLines(e, knownHosts)
    ensures Clean(Lines(Updated(text, e, knownHosts)))
  {
    hide Keep, EntryLines, Read, IsCleanLine, Lines, Unlines, IsLine, Marker, Clean;
    var kept := Keep(Lines(text), Marker(e.alias), false);
    var own := EntryLines(e, knownHosts);
    KeepClean(Lines(text), Marker(e.alias), false);
    EntryIsClean(e, knownHosts);
    CleanAppend(kept, own);
    CleanAreLines(kept);
    CleanAreLines(own);
    LinesOfUnlines(kept, Unlines(own));
    LinesOfText(own);
  }

  lemma CleanAppend(a: seq<string>, b: seq<string>)
    requires Clean(a) && Clean(b)
    ensures Clean(a + b)
  {
    hide IsCleanLine;
  }

  lemma LinesOfText(lines: seq<string>)
    requires AreLines(lines)
    ensures Lines(Unlines(lines)) == lines
  {
    hide IsLine, Unlines;
    LinesOfUnlines(lines, "");
    AppendEmpty(Unlines(lines));
    AppendEmpty(lines);
  }

  lemma CleanAreLines(lines: seq<string>)
    requires Clean(lines)
    ensures AreLines(lines)
  {
    hide IsBlank, IsHostLine, IsSetting, IsLine;
  }

  lemma EmptyText()
    ensures Lines("") == [] && Kept("")
  {}

  /** An update drops the alias's block, if any, keeps all others with their settings and order, and
      adds the new block at the end. */
  lemma UpdateReplacesBlock(text: string, e: Entry, knownHosts: string)
    requires Kept(text) && WellFormed(e) && IsLine(knownHosts)
    ensures Kept(Updated(text, e, knownHosts))
    ensures Blocks(Updated(text, e, knownHosts)) ==
            WithoutAlias(Blocks(text), e.alias) + [Block(e.alias, Body(e, knownHosts))]
  {
    hide Keep, EntryLines, Read, Lines, Updated, Body, WithoutAlias, Marker, Clean, IsLine, IsAlias;
    UpdatedLines(text, e, knownHosts);
    EntryReads(e, knownHosts);
    KeepReads(Lines(text), e.alias, false);
    ReadAppend(Keep(Lines(text), Marker(e.alias), false), EntryLines(e, knownHosts));
  }

  /** Repeating an update is never byte-for-byte idempotent: it leaves one more blank line. */
  lemma RepeatedUpdateAddsBlank(text: string, e: Entry, knownHosts: string)
    requires Kept(text) && WellFormed(e) && IsLine(knownHosts)
    ensures var once := Updated(text, e, knownHosts);
      && Updated(once, e, knownHosts) != once
      && Lines(Updated(once, e, knownHosts)) ==
         Keep(Lines(text), Marker(e.alias), false) + [""] + EntryLines(e, knownHosts)
  {
    var once := Updated(text, e, knownHosts);
    var marker := Marker(e.alias);
    var kept := Keep(Lines(text), marker, false);
    UpdatedLines(text, e, knownHosts);
    UpdateReplacesBlock(text, e, knownHosts);
    UpdatedLines(once, e, knownHosts);
    KeepHasNoMarker(Lines(text), marker, false);
    KeepOwnEntry(e, knownHosts);
    KeepPast(kept, EntryLines(e, knownHosts), marker);
    assert |Lines(Updated(once, e, knownHosts))| == |Lines(once)| + 1;
  }

  ghost predicate NoMarker(lines: seq<string>, marker: string)
  {
    forall i :: 0 <= i < |lines| ==> Trim(lines[i]) != marker
  }

  lemma {:induction false} KeepHasNoMarker(lines: seq<string>, marker: string, skip: bool)
    ensures NoMarker(Keep(lines, marker, skip), marker)
    decreases |lines|
  {
    if lines != [] {
      KeepStep(lines, marker, skip);
      hide Keep, NoMarker;
      KeepHasNoMarker(lines[1..], marker, true);
      KeepHasNoMarker(lines[1..], marker, false);
      NoMarkerCons(lines[0], Keep(lines[1..], marker, false), marker);
    }
  }

  lemma NoMarkerCons(line: string, rest: seq<string>, marker: string)
    ensures Trim(line) != marker && NoMarker(rest, marker) ==> NoMarker([line] + rest, marker)
  {
    hide Trim;
  }

  lemma KeepCons(lines: seq<string>, marker: string)
    requires lines != [] && Trim(lines[0]) != marker
    ensures Keep(lines, marker, false) == [lines[0]] + Keep(lines[1..], marker, false)
  {
    hide Trim, EndsSkip;
  }

  lemma {:induction false} KeepPast(x: seq<string>, y: seq<string>, marker: string)
    requires NoMarker(x, marker)
    ensures Keep(x + y, marker, false) == x + Keep(y, marker, false)
  {
    hide Keep, Trim;
    if x == [] {
      AppendEmpty(y);
      AppendEmpty(Keep(y, marker, false));
    } else {
      AppendHead(x, y);
      KeepCons(x + y, marker);
      KeepPast(x[1..], y, marker);
      AppendHead(x, Keep(y, marker, false));
    }
  }

  lemma {:induction false} KeepSettings(body: seq<string>, alias: string)
    requires AllSettings(body)
    ensures Keep(body, Marker(alias), true) == []
  {
    if body != [] {
      hide IsSetting, IsLine, Marker, Keep, EndsSkip, Trim;
      AppendHead(body, []);
      assert AllSettings(body[1..]);
      assert IsSetting(body[0]) && IsLine(body[0]);
      hide AllSettings;
      KeepOther(body[0], body[1..], alias, true);
      KeepSettings(body[1..], alias);
    }
  }

  /** Of its own entry an update keeps only the leading blank line. */
  lemma KeepOwnEntry(e: Entry, knownHosts: string)
    requires WellFormed(e) && IsLine(knownHosts)
    ensures Keep(EntryLines(e, knownHosts), Marker(e.alias), false) == [""]
  {
    BlankIsBlank();
    hide Body, IsSetting, IsBlank, Keep, Marker, EntryLines, AllSettings, IsAlias, IsLine;
    var body := Body(e, knownHosts);
    EntryShape(e, knownHosts);
    BodyIsSettings(e, knownHosts);
    KeepOther("", [Marker(e.alias)] + body, e.alias, false);
    KeepHost(e.alias, body, e.alias, false);
    KeepSettings(body, e.alias);
    AppendEmpty([""]);
  }

  // ---------- The file as a map ----------

  /** The file after a sequence of updates to an empty one. */
  ghost function FileAfter(us: seq<Entry>, knownHosts: string): string
  {
    if us == [] then "" else Updated(FileAfter(us[..|us| - 1], knownHosts), us[|us| - 1], knownHosts)
  }

  /** Whether `us[i]` is the last update of its alias. */
  ghost predicate IsLast(us: seq<Entry>, i: nat)
    requires i < |us|
  {
    forall j :: i < j < |us| ==> us[j].alias != us[i].alias
  }

  ghost predicate AliasesDistinct(blocks: seq<Block>)
  {
    forall i, j :: 0 <= i < j < |blocks| ==> blocks[i].alias != blocks[j].alias
  }

  lemma {:induction false} WithoutAliasKeeps(blocks: seq<Block>, alias: string)
    ensures forall b :: b in WithoutAlias(blocks, alias) <==> b in blocks && b.alias != alias
    ensures AliasesDistinct(blocks) ==> AliasesDistinct(WithoutAlias(blocks, alias))
  {
    if blocks != [] {
      WithoutAliasKeeps(blocks[1..], alias);
      assert forall b :: b in blocks <==> b == blocks[0] || b in blocks[1..];
    }
  }

  /** The blocks are those of the last update of each alias, and no others. */
  ghost predicate HoldsLast(us: seq<Entry>, knownHosts: string, blocks: seq<Block>)
  {
    && (forall i :: 0 <= i < |us| && IsLast(us, i) ==> Block(us[i].alias, Body(us[i], knownHosts)) in blocks)
    && (forall b :: b in blocks ==>
          exists i :: 0 <= i < |us| && IsLast(us, i) && b == Block(us[i].alias, Body(us[i], knownHosts)))
  }

  /** After any sequence of updates the file holds exactly one block per alias ever written, with the
      port and key last written for it. */
  lemma {:induction false} FileIsLastWriteMap(us: seq<Entry>, knownHosts: string)
    requires IsLine(knownHosts) && forall i :: 0 <= i < |us| ==> WellFormed(us[i])
    ensures Kept(FileAfter(us, knownHosts))
    ensures AliasesDistinct(Blocks(FileAfter(us, knownHosts)))
    ensures HoldsLast(us, knownHosts, Blocks(FileAfter(us, knownHosts)))
  {
    if us == [] {
      EmptyText();
    } else {
      hide WellFormed, Kept, Blocks, Updated, Body, IsLine, AliasesDistinct, HoldsLast, WithoutAlias, Marker;
      var init, last := us[..|us| - 1], us[|us| - 1];
      FileIsLastWriteMap(init, knownHosts);
      var file := FileAfter(init, knownHosts);
      UpdateReplacesBlock(file, last, knownHosts);
      WithoutAliasKeeps(Blocks(file), last.alias);
      LastAfterOne(us, knownHosts, Blocks(file), WithoutAlias(Blocks(file), last.alias));
    }
  }

  lemma StillLast(us: seq<Entry>, knownHosts: string, before: seq<Block>, i: nat)
    requires us != [] && HoldsLast(us[..|us| - 1], knownHosts, before)
    requires i < |us| - 1 && IsLast(us, i)
    ensures Block(us[i].alias, Body(us[i], knownHosts)) in before && us[i].alias != us[|us| - 1].alias
  {
    hide Body;
    var init := us[..|us| - 1];
    assert init[i] == us[i];
    assert IsLast(init, i);
  }

  lemma WasLast(us: seq<Entry>, knownHosts: string, before: seq<Block>, b: Block)
    requires us != [] && HoldsLast(us[..|us| - 1], knownHosts, before)
    requires b in before && b.alias != us[|us| - 1].alias
    ensures exists i :: 0 <= i < |us| && IsLast(us, i) && b == Block(us[i].alias, Body(us[i], knownHosts))
  {
    hide Body;
    var init := us[..|us| - 1];
    var i :| 0 <= i < |init| && IsLast(init, i) && b == Block(init[i].alias, Body(init[i], knownHosts));
    assert us[i] == init[i];
    assert IsLast(us, i);
  }

  lemma DistinctAppend(rest: seq<Block>, own: Block)
    requires AliasesDistinct(rest) && forall b :: b in rest ==> b.alias != own.alias
    ensures AliasesDistinct(rest + [own])
  {}

  lemma LastAfterOne(us: seq<Entry>, knownHosts: string, before: seq<Block>, rest: seq<Block>)
    requires us != [] && HoldsLast(us[..|us| - 1], knownHosts, before) && AliasesDistinct(rest)
    requires forall b :: b in rest <==> b in before && b.alias != us[|us| - 1].alias
    ensures var last := us[|us| - 1];
      var blocks := rest + [Block(last.alias, Body(last, knownHosts))];
      HoldsLast(us, knownHosts, blocks) && AliasesDistinct(blocks)
  {
    var last := us[|us| - 1];
    var own := Block(last.alias, Body(last, knownHosts));
    var blocks := rest + [own];
    DistinctAppend(rest, own);
    assert own in blocks && forall b :: b in blocks <==> b in rest || b == own;
    hide Body, AliasesDistinct;
    forall i | 0 <= i < |us| && IsLast(us, i) ensures Block(us[i].alias, Body(us[i], knownHosts)) in blocks {
      if i < |us| - 1 { StillLast(us, knownHosts, before, i); }
    }
    forall b | b in blocks
      ensures exists i :: 0 <= i < |us| && IsLast(us, i) && b == Block(us[i].alias, Body(us[i], knownHosts))
    {
      if b == own {
        assert IsLast(us, |us| - 1);
      } else {
        WasLast(us, knownHosts, before, b);
      }
    }
  }

  /** The other settings are fixed, but for the known-hosts file. */
  lemma BodyIsFixed(e: Entry, knownHosts: string)
    ensures var body := Body(e, knownHosts);
      && |body| == 6 && body[0] == "    " + "HostName 127.0.0.1" && body[2] == "    " + "User bettercoding"
      && body[4] == "    " + "StrictHostKeyChecking no" && body[5] == "    " + ("UserKnownHostsFile " + knownHosts)
  {}

  /** The port and key can be read off a block's settings. */
  lemma BodyTellsPortAndKey(e: Entry, knownHosts: string)
    ensures var body := Body(e, knownHosts);
      && |body| == 6
      && (INDENT + PORT) <= body[1] && AllDigits(body[1][9..]) && Value(body[1][9..]) == e.port
      && (INDENT + IDENTITY) <= body[3] && body[3][17..] == e.key
  {
    var p, k := INDENT + PORT, INDENT + IDENTITY;
    assert |p| == 9 && |k| == 17;
    PrefixAndRest(p, Decimal(e.port));
    PrefixAndRest(k, e.key);
    assert INDENT + (PORT + Decimal(e.port)) == p + Decimal(e.port);
    assert INDENT + (IDENTITY + e.key) == k + e.key;
  }

  // ---------- Order ----------

  /** The blocks of the last updates, from the update at `from` on, in order of update. */
  ghost function LastBlocks(us: seq<Entry>, knownHosts: string, from: nat): seq<Block>
    requires from <= |us|
    decreases |us| - from
  {
    if from == |us| then []
    else
      (if IsLast(us, from) then [Block(us[from].alias, Body(us[from], knownHosts))] else []) +
      LastBlocks(us, knownHosts, from + 1)
  }

  lemma WithoutAliasCons(b: Block, rest: seq<Block>, alias: string)
    ensures WithoutAlias([b] + rest, alias) == (if b.alias == alias then [] else [b]) + WithoutAlias(rest, alias)
  {
    AppendHead([b], rest);
    AppendEmpty(rest);
    AppendEmpty(WithoutAlias(rest, alias));
  }

  lemma LastAfterUpdate(us: seq<Entry>, i: nat)
    requires i < |us| - 1
    ensures IsLast(us, i) <==> IsLast(us[..|us| - 1], i) && us[i].alias != us[|us| - 1].alias
  {
    var init := us[..|us| - 1];
    if IsLast(init, i) && us[i].alias != us[|us| - 1].alias {
      forall j | i < j < |us| ensures us[j].alias != us[i].alias {
        if j < |us| - 1 { assert init[j] == us[j]; }
      }
    }
  }

  /** One more update takes the alias's block away and puts the new one last. */
  lemma {:induction false} LastBlocksAfterUpdate(us: seq<Entry>, knownHosts: string, from: nat)
    requires from < |us|
    ensures var init, last := us[..|us| - 1], us[|us| - 1];
      LastBlocks(us, knownHosts, from) ==
      WithoutAlias(LastBlocks(init, knownHosts, from), last.alias) + [Block(last.alias, Body(last, knownHosts))]
    decreases |us| - from
  {
    hide Body;
    var init, last := us[..|us| - 1], us[|us| - 1];
    var own := [Block(last.alias, Body(last, knownHosts))];
    if from == |us| - 1 {
      assert LastBlocks(us, knownHosts, from + 1) == [];
      AppendEmpty(own);
    } else {
      LastBlocksAfterUpdate(us, knownHosts, from + 1);
      LastAfterUpdate(us, from);
      var b, rest := Block(us[from].alias, Body(us[from], knownHosts)), LastBlocks(init, knownHosts, from + 1);
      WithoutAliasCons(b, rest, last.alias);
      AppendEmpty(rest);
      AppendEmpty(WithoutAlias(rest, last.alias) + own);
      AppendEmpty(WithoutAlias(rest, last.alias));
      AppendAssoc([b], WithoutAlias(rest, last.alias), own);
    }
  }

  /** After any sequence of updates the blocks of the file are those of the last update of each alias,
      in the order of those updates. */
  lemma {:induction false} FileInOrderOfLastUpdate(us: seq<Entry>, knownHosts: string)
    requires IsLine(knownHosts) && forall i :: 0 <= i < |us| ==> WellFormed(us[i])
    ensures Kept(FileAfter(us, knownHosts)) && Blocks(FileAfter(us, knownHosts)) == LastBlocks(us, knownHosts, 0)
  {
    if us == [] {
      EmptyText();
    } else {
      hide WellFormed, Kept, Blocks, Updated, Body, IsLine, WithoutAlias, Marker, LastBlocks;
      var init, last := us[..|us| - 1], us[|us| - 1];
      FileInOrderOfLastUpdate(init, knownHosts);
      UpdateReplacesBlock(FileAfter(init, knownHosts), last, knownHosts);
      LastBlocksAfterUpdate(us, knownHosts, 0);
    }
  }

  // ---------- Any file ----------

  /** A line that belongs to the block before it: blank, or indented by a space or a tab. */
  ghost predicate Belongs(line: string) { AllWhitespace(line) || line[0] == ' ' || line[0] == '\t' }

  lemma EndsSkipIff(line: string)
    ensures EndsSkip(line) <==> !Belongs(line)
  {
    TrimBlankIff(line);
    assert HOST <= line ==> line[0] == 'H';
    hide Trim;
  }

  lemma {:induction false} BlockSkipped(body: seq<string>, rest: seq<string>, marker: string)
    requires forall i :: 0 <= i < |body| ==> Belongs(body[i])
    ensures Keep(body + rest, marker, true) == Keep(rest, marker, true)
  {
    if body == [] {
      AppendEmpty(rest);
    } else {
      AppendHead(body, rest);
      EndsSkipIff(body[0]);
      hide Trim, EndsSkip, Belongs;
      BlockSkipped(body[1..], rest, marker);
    }
  }

  /** In any file, whoever wrote it: of the host's block exactly its Host line and the lines that belong
      to it go; the lines before stay, and so does the line that ends it. */
  lemma BlockExtent(before: seq<string>, host: string, body: seq<string>, rest: seq<string>, alias: string)
    requires NoMarker(before, Marker(alias)) && Trim(host) == Marker(alias)
    requires forall i :: 0 <= i < |body| ==> Belongs(body[i])
    requires rest == [] || (!Belongs(rest[0]) && Trim(rest[0]) != Marker(alias))
    ensures Keep(before + ([host] + (body + rest)), Marker(alias), false) == before + Keep(rest, Marker(alias), false)
  {
    var marker := Marker(alias);
    KeepPast(before, [host] + (body + rest), marker);
    AppendHead([host], body + rest);
    AppendEmpty(body + rest);
    BlockSkipped(body, rest, marker);
    if rest != [] { EndsSkipIff(rest[0]); }
    hide Trim, EndsSkip, Belongs, NoMarker, Marker;
  }
}
