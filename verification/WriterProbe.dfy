/** Which conversation the agent processes of a pane have resumed, read from their argument vectors. */
module WriterProbe {
  import opened Text

  datatype Evidence = NoResumeArg | ConfirmedResume(id: string) | Ambiguous | Unknown

  /** Path::file_name and Uuid::parse_str followed by to_string. */
  datatype Host = Host(fileName: string -> Option<string>, parseUuid: string -> Option<string>)

  // An argument vector, or none when it could not be read.
  type Argv = Option<seq<string>>

  /** What processes show: the ids they name, and whether anything is unreadable or unparsable. */
  datatype Finding = Finding(ids: set<string>, invalid: bool)

  const NOTHING := Finding({}, false)
  const INVALID := Finding({}, true)

  function Both(f: Finding, g: Finding): Finding { Finding(f.ids + g.ids, f.invalid || g.invalid) }

  function NamedId(host: Host, value: Option<string>): Finding
  {
    if value.Some? && host.parseUuid(value.value).Some? then Finding({host.parseUuid(value.value).value}, false)
    else INVALID
  }

  ghost function Conclude(f: Finding): Evidence
  {
    if f.invalid || |f.ids| > 1 then Ambiguous
    else if f.ids == {} then NoResumeArg
    else
      var id :| id in f.ids;
      ConfirmedResume(id)
  }

  /** The least evidence above both: differing ids, or anything ambiguous, is ambiguous. */
  function JoinEvidence(a: Evidence, b: Evidence): Evidence
  {
    if a.NoResumeArg? then b
    else if b.NoResumeArg? then a
    else if a == b then a
    else Ambiguous
  }

  lemma TwoElements(s: set<string>, a: string, b: string)
    requires a in s && b in s && a != b
    ensures |s| > 1
  {
    assert s == {a, b} + (s - {a, b});
  }

  lemma ConcludeConfirmed(f: Finding, id: string)
    requires !f.invalid && f.ids == {id}
    ensures Conclude(f) == ConfirmedResume(id)
  {}

  lemma SingletonOf(s: set<string>, id: string)
    requires |s| <= 1 && id in s
    ensures s == {id}
  {
    forall x | x in s ensures x == id {
      if x != id { TwoElements(s, x, id); }
    }
  }

  /** Concluding from the findings of both is joining the two conclusions. */
  lemma ConcludeJoins(f: Finding, g: Finding)
    ensures Conclude(Both(f, g)) == JoinEvidence(Conclude(f), Conclude(g))
  {
    var u := Both(f, g);
    assert f.ids <= u.ids && g.ids <= u.ids;
    assert u.ids == f.ids + (u.ids - f.ids) == g.ids + (u.ids - g.ids);
    if f.invalid || g.invalid || |f.ids| > 1 || |g.ids| > 1 {
    } else if f.ids == {} {
      assert u.ids == g.ids;
    } else if g.ids == {} {
      assert u.ids == f.ids;
    } else {
      var a :| a in f.ids;
      var b :| b in g.ids;
      SingletonOf(f.ids, a);
      SingletonOf(g.ids, b);
      ConcludeConfirmed(f, a);
      ConcludeConfirmed(g, b);
      if a == b {
        assert u.ids == {a};
        ConcludeConfirmed(u, a);
      } else {
        TwoElements(u.ids, a, b);
      }
    }
  }

  // ---------- Claude ----------

  predicate IsClaude(host: Host, arg: string)
  {
    host.fileName(arg) == Some("claude") || host.fileName(arg) == Some("claude.exe")
  }

  predicate IsWrapper(host: Host, arg: string)
  {
    var name := host.fileName(arg);
    name.Some? && name.value in {"sh", "bash", "dash", "zsh", "node", "nodejs"}
  }

  /** The arguments after the program, directly run or through a shell or node. */
  function ClaudeArgs(host: Host, argv: seq<string>): Option<seq<string>>
  {
    if |argv| > 0 && IsClaude(host, argv[0]) then Some(argv[1..])
    else if |argv| > 1 && IsWrapper(host, argv[0]) && IsClaude(host, argv[1]) then Some(argv[2..])
    else None
  }

  predicate TakesValue(arg: string)
  {
    arg in {"--model", "--name", "--effort", "--settings", "--permission-mode", "--mcp-config", "--allowedTools",
            "--disallowedTools", "--append-system-prompt", "--system-prompt", "--output-format", "--input-format",
            "--agent", "--agents", "--add-dir", "--plugin-dir", "--tools"}
  }

  predicate NamesSession(arg: string) { arg == "--resume" || arg == "--session-id" }

  function InlineValue(arg: string): Option<string>
  {
    if "--resume=" <= arg then Some(arg[9..])
    else if "--session-id=" <= arg then Some(arg[13..])
    else None
  }

  predicate EndsOptions(arg: string) { arg == "--" || arg == "" || arg[0] != '-' }

  /** `skip` elements dropped, or none left. */
  function Drop(args: seq<string>, skip: nat): seq<string> { if skip <= |args| then args[skip..] else [] }

  function ClaudeOptions(host: Host, args: seq<string>): Finding
    decreases |args|
  {
    if args == [] || EndsOptions(args[0]) then NOTHING
    else if NamesSession(args[0]) then
      Both(NamedId(host, if |args| > 1 then Some(args[1]) else None), ClaudeOptions(host, Drop(args, 2)))
    else if InlineValue(args[0]).Some? then Both(NamedId(host, InlineValue(args[0])), ClaudeOptions(host, args[1..]))
    else ClaudeOptions(host, Drop(args, if TakesValue(args[0]) then 2 else 1))
  }

  function ClaudeFinding(host: Host, argv: Argv): Finding
  {
    if argv.None? || ClaudeArgs(host, argv.value).None? then INVALID
    else ClaudeOptions(host, ClaudeArgs(host, argv.value).value)
  }

  // ---------- Codex ----------

  /** Options whose value is the next argument. */
  predicate IsValueOption(arg: string)
  {
    arg in {"-c", "--config", "-m", "--model", "-s", "--sandbox", "-a", "--ask-for-approval", "-p", "--profile",
            "-C", "--cd", "--enable", "--disable", "--add-dir", "--local-provider",
            "--remote", "--remote-auth-token-env"}
  }

  predicate IsImage(arg: string) { arg == "-i" || arg == "--image" || "--image=" <= arg }

  predicate IsPositional(arg: string) { arg == "" || arg[0] != '-' || arg == "-" }

  datatype CodexLine = CodexLine(positionals: seq<string>, last: bool)

  /** A line read further left: more operands in front, possibly a --last. */
  function Prepend(positionals: seq<string>, last: bool, line: Option<CodexLine>): Option<CodexLine>
  {
    if line.None? then None else Some(CodexLine(positionals + line.value.positionals, last || line.value.last))
  }

  /** What one argument that is neither "--" nor an image option contributes. */
  function OwnOperand(arg: string): seq<string>
  {
    if arg != "--last" && !IsValueOption(arg) && IsPositional(arg) then [arg] else []
  }

  function Width(arg: string): nat { if arg != "--last" && IsValueOption(arg) then 2 else 1 }

  /** The positional arguments and whether --last appears; none when an image option appears. */
  function CodexArgs(args: seq<string>): Option<CodexLine>
    decreases |args|
  {
    if args == [] then Some(CodexLine([], false))
    else if args[0] == "--" then Some(CodexLine(args[1..], false))
    else if IsImage(args[0]) then None
    else Prepend(OwnOperand(args[0]), args[0] == "--last", CodexArgs(Drop(args, Width(args[0]))))
  }

  lemma PrependNothing(line: Option<CodexLine>)
    ensures Prepend([], false, line) == line
  {
    if line.Some? { assert [] + line.value.positionals == line.value.positionals; }
  }

  lemma PrependTwice(p: seq<string>, a: bool, q: seq<string>, b: bool, line: Option<CodexLine>)
    ensures Prepend(p, a, Prepend(q, b, line)) == Prepend(p + q, a || b, line)
  {
    if line.Some? { assert p + (q + line.value.positionals) == (p + q) + line.value.positionals; }
  }

  function CodexFinding(host: Host, argv: Argv): Finding
  {
    if argv.None? || CodexArgs(Drop(argv.value, 1)).None? then INVALID
    else
      var line := CodexArgs(Drop(argv.value, 1)).value;
      if line.positionals == [] || line.positionals[0] != "resume" then NOTHING
      else if |line.positionals| > 1 && !line.last then NamedId(host, Some(line.positionals[1]))
      else INVALID
  }

  // ---------- Both agents ----------

  datatype Agent = Claude | Codex

  function FindingOf(agent: Agent, host: Host, argv: Argv): Finding
  {
    if agent.Claude? then ClaudeFinding(host, argv) else CodexFinding(host, argv)
  }

  function Findings(agent: Agent, host: Host, argvs: seq<Argv>): Finding
  {
    if argvs == [] then NOTHING else Both(FindingOf(agent, host, argvs[0]), Findings(agent, host, argvs[1..]))
  }

  ghost function EvidenceOf(agent: Agent, host: Host, argvs: seq<Argv>): Evidence
  {
    Conclude(Findings(agent, host, argvs))
  }

  /** The findings of a list are the union of its members'. */
  lemma {:induction false} FindingsAreUnion(agent: Agent, host: Host, argvs: seq<Argv>)
    ensures forall id :: id in Findings(agent, host, argvs).ids <==>
              exists x :: x in argvs && id in FindingOf(agent, host, x).ids
    ensures Findings(agent, host, argvs).invalid <==> exists x :: x in argvs && FindingOf(agent, host, x).invalid
  {
    if argvs != [] {
      hide FindingOf;
      FindingsAreUnion(agent, host, argvs[1..]);
      assert forall x :: x in argvs <==> x == argvs[0] || x in argvs[1..];
    }
  }

  /** Evidence of a concatenated process list is the join of the evidence of its parts. */
  lemma EvidenceIsJoin(agent: Agent, host: Host, xs: seq<Argv>, ys: seq<Argv>)
    ensures EvidenceOf(agent, host, xs + ys) ==
            JoinEvidence(EvidenceOf(agent, host, xs), EvidenceOf(agent, host, ys))
  {
    hide FindingOf, Conclude;
    FindingsAreUnion(agent, host, xs);
    FindingsAreUnion(agent, host, ys);
    FindingsAreUnion(agent, host, xs + ys);
    assert Findings(agent, host, xs + ys) == Both(Findings(agent, host, xs), Findings(agent, host, ys));
    ConcludeJoins(Findings(agent, host, xs), Findings(agent, host, ys));
  }

  /** Evidence depends neither on the order of the processes nor on repetitions. */
  lemma EvidenceIgnoresOrder(agent: Agent, host: Host, xs: seq<Argv>, ys: seq<Argv>)
    requires forall x :: x in xs <==> x in ys
    ensures EvidenceOf(agent, host, xs) == EvidenceOf(agent, host, ys)
  {
    hide FindingOf, Conclude;
    FindingsAreUnion(agent, host, xs);
    FindingsAreUnion(agent, host, ys);
    assert Findings(agent, host, xs) == Findings(agent, host, ys);
  }

  // ---------- The scans as the probe runs them ----------

  method Decide(ids: set<string>, invalid: bool) returns (r: Evidence)
    ensures r == Conclude(Finding(ids, invalid))
  {
    if invalid || |ids| > 1 { return Ambiguous; }
    if ids == {} { return NoResumeArg; }
    var id :| id in ids;
    SingletonOf(ids, id);
    return ConfirmedResume(id);
  }

  method ScanClaudeOptions(host: Host, args: seq<string>, ids0: set<string>, invalid0: bool)
    returns (ids: set<string>, invalid: bool)
    ensures Finding(ids, invalid) == Both(Finding(ids0, invalid0), ClaudeOptions(host, args))
  {
    hide TakesValue, NamesSession, InlineValue, EndsOptions;
    ids, invalid := ids0, invalid0;
    var i := 0;
    while i < |args|
      invariant 0 <= i <= |args|
      invariant Both(Finding(ids, invalid), ClaudeOptions(host, args[i..])) ==
                Both(Finding(ids0, invalid0), ClaudeOptions(host, args))
    {
      ghost var rest := args[i..];
      var arg := args[i];
      assert rest[0] == arg && Drop(rest, 1) == rest[1..] == args[i + 1..];
      if EndsOptions(arg) { break; }
      i := i + 1;
      var value: Option<Option<string>> := None;
      if NamesSession(arg) {
        if i < |args| {
          assert Drop(rest, 2) == args[i + 1..];
          value := Some(Some(args[i]));
          i := i + 1;
        } else {
          value := Some(None);
        }
      } else if InlineValue(arg).Some? {
        value := Some(InlineValue(arg));
      } else if TakesValue(arg) && i < |args| {
        assert Drop(rest, 2) == args[i + 1..];
        i := i + 1;
      }
      if value.Some? {
        if value.value.Some? && host.parseUuid(value.value.value).Some? {
          ids := ids + {host.parseUuid(value.value.value).value};
        } else {
          invalid := true;
        }
      }
    }
  }

  method ResumeEvidence(host: Host, argvs: seq<Argv>) returns (r: Evidence)
    ensures r == EvidenceOf(Claude, host, argvs)
  {
    hide ClaudeOptions, ClaudeArgs, Conclude;
    var ids: set<string>, invalid := {}, false;
    var k := 0;
    while k < |argvs|
      invariant 0 <= k <= |argvs|
      invariant Both(Finding(ids, invalid), Findings(Claude, host, argvs[k..])) == Findings(Claude, host, argvs)
    {
      assert argvs[k..][0] == argvs[k] && argvs[k..][1..] == argvs[k + 1..];
      if argvs[k].None? || ClaudeArgs(host, argvs[k].value).None? {
        invalid := true;
      } else {
        ids, invalid := ScanClaudeOptions(host, ClaudeArgs(host, argvs[k].value).value, ids, invalid);
      }
      k := k + 1;
    }
    r := Decide(ids, invalid);
  }

  method CodexPositionals(args: seq<string>) returns (r: Option<CodexLine>)
    ensures r == CodexArgs(args)
  {
    hide IsImage, IsPositional, IsValueOption, Prepend;
    var positionals, last := [], false;
    var i := 0;
    assert args[0..] == args;
    PrependNothing(CodexArgs(args));
    while i < |args|
      invariant 0 <= i <= |args|
      invariant CodexArgs(args) == Prepend(positionals, last, CodexArgs(args[i..]))
    {
      ghost var rest := args[i..];
      var arg := args[i];
      assert rest[0] == arg && rest[1..] == Drop(rest, 1) == args[i + 1..];
      PrependTwice(positionals, last, OwnOperand(arg), arg == "--last", CodexArgs(Drop(rest, Width(arg))));
      i := i + 1;
      if arg == "--" {
        PrependTail(positionals, last, args[i..]);
        positionals := positionals + args[i..];
        i := |args|;
      } else if IsImage(arg) {
        PrependNone(positionals, last);
        return None;
      } else if arg == "--last" {
        last := true;
      } else if IsValueOption(arg) {
        if i < |args| {
          assert Drop(rest, 2) == args[i + 1..];
          i := i + 1;
        }
      } else if IsPositional(arg) {
        positionals := positionals + [arg];
      }
      assert positionals + [] == positionals;
    }
    PrependTail(positionals, last, []);
    assert positionals + [] == positionals;
    return Some(CodexLine(positionals, last));
  }

  lemma PrependTail(p: seq<string>, last: bool, tail: seq<string>)
    ensures Prepend(p, last, Some(CodexLine(tail, false))) == Some(CodexLine(p + tail, last))
    ensures Prepend(p + tail, last, Some(CodexLine([], false))) == Some(CodexLine(p + tail, last))
  {
    assert (p + tail) + [] == p + tail;
  }

  lemma PrependNone(p: seq<string>, last: bool)
    ensures Prepend(p, last, None) == None
  {}

  method CodexResumeEvidence(host: Host, argvs: seq<Argv>) returns (r: Evidence)
    ensures r == EvidenceOf(Codex, host, argvs)
  {
    hide CodexArgs, Conclude;
    var ids: set<string>, ambiguous := {}, false;
    var k := 0;
    while k < |argvs|
      invariant 0 <= k <= |argvs|
      invariant Both(Finding(ids, ambiguous), Findings(Codex, host, argvs[k..])) == Findings(Codex, host, argvs)
    {
      assert argvs[k..][0] == argvs[k] && argvs[k..][1..] == argvs[k + 1..];
      if argvs[k].None? {
        ambiguous := true;
      } else {
        var line := CodexPositionals(Drop(argvs[k].value, 1));
        if line.None? {
          ambiguous := true;
        } else if line.value.positionals != [] && line.value.positionals[0] == "resume" {
          if |line.value.positionals| > 1 && !line.value.last && host.parseUuid(line.value.positionals[1]).Some? {
            ids := ids + {host.parseUuid(line.value.positionals[1]).value};
          } else {
            ambiguous := true;
          }
        }
      }
      k := k + 1;
    }
    r := Decide(ids, ambiguous);
  }

  // ---------- Rendering a Codex command line ----------

  datatype CodexArg = Switch(name: string) | Setting(name: string, value: string) | Last | Operand(text: string)

  /** The options that `codex --help` and `codex resume --help` list with a value. */
  const CODEX_SETTINGS: seq<string> :=
    ["-c", "--config", "-m", "--model", "-s", "--sandbox", "-a", "--ask-for-approval", "-p", "--profile",
     "-C", "--cd", "--enable", "--disable", "--add-dir", "--local-provider", "--remote", "--remote-auth-token-env"]

  predicate IsDashed(arg: string) { arg != "" && arg[0] == '-' }

  predicate WellFormed(a: CodexArg)
  {
    match a
    case Switch(name) =>
      && IsDashed(name) && name != "-" && name != "--" && name != "--last"
      && name != "-i" && name != "--image" && !("--image=" <= name) && name !in CODEX_SETTINGS
    case Setting(name, _) => name in CODEX_SETTINGS
    case Last => true
    case Operand(text) => !IsDashed(text) || text == "-"
  }

  lemma CodexWords(arg: string)
    ensures arg in CODEX_SETTINGS <==> IsValueOption(arg)
    ensures IsPositional(arg) <==> !IsDashed(arg) || arg == "-"
  {}

  /** The arguments one element renders to. */
  function RenderOne(a: CodexArg): seq<string>
  {
    match a
    case Switch(name) => [name]
    case Setting(name, value) => [name, value]
    case Last => ["--last"]
    case Operand(text) => [text]
  }

  /** Options with arbitrary values, switches and operands, then operands after "--" if any. */
  function Render(line: seq<CodexArg>, tail: Option<seq<string>>): seq<string>
  {
    if line == [] then (if tail.Some? then ["--"] + tail.value else [])
    else RenderOne(line[0]) + Render(line[1..], tail)
  }

  function OperandsOf(a: CodexArg): seq<string> { if a.Operand? then [a.text] else [] }

  function Operands(line: seq<CodexArg>): seq<string>
  {
    if line == [] then [] else OperandsOf(line[0]) + Operands(line[1..])
  }

  lemma ValueOptionShape(name: string)
    requires IsValueOption(name)
    ensures name != "--" && name != "--last" && !IsImage(name) && !IsPositional(name)
  {
    assert |name| > 1 && name[0] == '-';
    assert name[1] != '-' ==> |name| == 2;
    assert |name| > 2 ==> name[2] != 'i' && name != "--last";
  }

  lemma OperandShape(text: string)
    requires IsPositional(text)
    ensures text != "--" && text != "--last" && !IsImage(text) && !IsValueOption(text)
  {
    if IsValueOption(text) { ValueOptionShape(text); }
  }

  lemma StepOver(a: CodexArg, rest: seq<string>)
    requires WellFormed(a)
    ensures CodexArgs(RenderOne(a) + rest) ==
            Prepend(OperandsOf(a), a.Last?, CodexArgs(rest))
  {
    var args := RenderOne(a) + rest;
    assert args[0] == RenderOne(a)[0];
    CodexWords(args[0]);
    if a.Setting? { ValueOptionShape(a.name); }
    if a.Operand? { OperandShape(a.text); }
    if a.Last? { LastShape(); }
    SwitchShape(a);
    hide IsImage, IsPositional, IsValueOption, Prepend;
    assert Drop(args, |RenderOne(a)|) == rest;
  }

  lemma SwitchShape(a: CodexArg)
    requires WellFormed(a)
    ensures a.Switch? ==> !IsImage(a.name) && !IsPositional(a.name) && !IsValueOption(a.name)
  {
    if a.Switch? {
      CodexWords(a.name);
      hide IsValueOption, IsPositional;
    }
  }

  lemma LastShape()
    ensures !IsImage("--last") && !IsValueOption("--last")
  {
    assert "--last"[2] == 'l';
  }

  lemma RenderedTailParses(tail: Option<seq<string>>)
    ensures CodexArgs(Render([], tail)) ==
            Some(CodexLine(Operands([]) + (if tail.Some? then tail.value else []), false))
  {
    hide IsImage, Prepend, Width, OwnOperand;
    AppendEmpty<string>([]);
    if tail.Some? {
      AppendHead(["--"], tail.value);
      AppendEmpty(tail.value);
      assert Render([], tail)[0] == "--";
    }
  }

  lemma RenderedHead(line: seq<CodexArg>, tail: Option<seq<string>>)
    requires line != []
    ensures Render(line, tail) == RenderOne(line[0]) + Render(line[1..], tail)
    ensures Operands(line) == OperandsOf(line[0]) + Operands(line[1..])
  {
    hide RenderOne, OperandsOf;
  }

  /** Reading a rendered line gives back exactly its operands, in order, and whether --last is there. */
  lemma {:induction false} RenderedLineParses(line: seq<CodexArg>, tail: Option<seq<string>>)
    requires forall i :: 0 <= i < |line| ==> WellFormed(line[i])
    ensures CodexArgs(Render(line, tail)) ==
            Some(CodexLine(Operands(line) + (if tail.Some? then tail.value else []), Last in line))
  {
    hide WellFormed;
    if line == [] {
      RenderedTailParses(tail);
    } else {
      RenderedHead(line, tail);
      hide CodexArgs, RenderOne, Render, Operands;
      RenderedLineParses(line[1..], tail);
      StepOver(line[0], Render(line[1..], tail));
      InHeadOrTail(Last, line);
      AppendAssoc(OperandsOf(line[0]), Operands(line[1..]), if tail.Some? then tail.value else []);
    }
  }

  // ---------- Rendering a Claude command line ----------

  datatype ClaudeArg =
    | Plain(name: string)
    | Valued(name: string, value: string)
    | Session(name: string, value: string)
    | InlineSession(name: string, value: string)

  /** Claude's options with a value that name no session. */
  const CLAUDE_SETTINGS: seq<string> :=
    ["--model", "--name", "--effort", "--settings", "--permission-mode", "--mcp-config", "--allowedTools",
     "--disallowedTools", "--append-system-prompt", "--system-prompt", "--output-format", "--input-format",
     "--agent", "--agents", "--add-dir", "--plugin-dir", "--tools"]

  predicate IsSessionOption(name: string) { name == "--resume" || name == "--session-id" }

  predicate WellFormedClaude(a: ClaudeArg)
  {
    match a
    case Plain(name) =>
      && IsDashed(name) && name != "--" && !IsSessionOption(name) && name !in CLAUDE_SETTINGS
      && !("--resume=" <= name) && !("--session-id=" <= name)
    case Valued(name, _) => name in CLAUDE_SETTINGS
    case Session(name, _) => IsSessionOption(name)
    case InlineSession(name, _) => IsSessionOption(name)
  }

  /** The prompt, or a "--" before it. */
  predicate IsRest(rest: seq<string>) { rest == [] || rest[0] == "--" || !IsDashed(rest[0]) }

  lemma ClaudeWords(arg: string)
    ensures arg in CLAUDE_SETTINGS <==> TakesValue(arg)
    ensures IsSessionOption(arg) <==> NamesSession(arg)
    ensures EndsOptions(arg) <==> arg == "--" || !IsDashed(arg)
  {}

  lemma PlainShape(a: ClaudeArg)
    requires WellFormedClaude(a)
    ensures a.Plain? ==>
              !EndsOptions(a.name) && !NamesSession(a.name) && InlineValue(a.name).None? && !TakesValue(a.name)
  {
    if a.Plain? {
      ClaudeWords(a.name);
      hide TakesValue, NamesSession, EndsOptions;
    }
  }

  function RenderClaudeOne(a: ClaudeArg): seq<string>
  {
    match a
    case Plain(name) => [name]
    case Valued(name, value) => [name, value]
    case Session(name, value) => [name, value]
    case InlineSession(name, value) => [name + ("=" + value)]
  }

  function RenderClaude(line: seq<ClaudeArg>, rest: seq<string>): seq<string>
  {
    if line == [] then rest else RenderClaudeOne(line[0]) + RenderClaude(line[1..], rest)
  }

  /** What the session options of a line name. */
  function SessionsNamed(host: Host, line: seq<ClaudeArg>): Finding
  {
    if line == [] then NOTHING
    else
      Both(if line[0].Session? || line[0].InlineSession? then NamedId(host, Some(line[0].value)) else NOTHING,
           SessionsNamed(host, line[1..]))
  }

  lemma ValuedShape(name: string)
    requires TakesValue(name)
    ensures !EndsOptions(name) && !NamesSession(name) && InlineValue(name).None?
  {
    assert |name| > 4 && name[0] == '-' && name[1] == '-';
    assert name[2] != 'r' && (name[2] == 's' && name[3] == 'e' ==> name[4] == 't');
  }

  lemma InlineShape(name: string, value: string)
    requires NamesSession(name)
    ensures var arg := name + ("=" + value);
      !EndsOptions(arg) && !NamesSession(arg) && InlineValue(arg) == Some(value)
    ensures !EndsOptions(name)
  {
    var arg := name + ("=" + value);
    var n := |name| + 1;
    assert arg[|name|] == '=' && arg[n..] == value && arg[..|name|] == name;
    if name == "--resume" {
      assert arg[..9] == "--resume=";
    } else {
      assert arg[..13] == "--session-id=";
      assert arg[2] == 's';
    }
  }

  lemma ClaudeStep(host: Host, a: ClaudeArg, rest: seq<string>)
    requires WellFormedClaude(a)
    ensures ClaudeOptions(host, RenderClaudeOne(a) + rest) ==
            Both(if a.Session? || a.InlineSession? then NamedId(host, Some(a.value)) else NOTHING,
                 ClaudeOptions(host, rest))
  {
    var args := RenderClaudeOne(a) + rest;
    assert args[0] == RenderClaudeOne(a)[0];
    PlainShape(a);
    if a.Valued? {
      ClaudeWords(a.name);
      ValuedShape(a.name);
    }
    if a.Session? || a.InlineSession? { InlineShape(a.name, a.value); }
    hide TakesValue, NamesSession, InlineValue, EndsOptions, NamedId;
    assert Drop(args, |RenderClaudeOne(a)|) == rest == args[|RenderClaudeOne(a)|..];
    var f := ClaudeOptions(host, rest);
    assert Both(NOTHING, f) == f;
  }

  /** A launch line names exactly what its session options name: values of other options and
      everything from the prompt on, whatever they contain, add nothing. */
  lemma {:induction false} RenderedClaudeNames(host: Host, line: seq<ClaudeArg>, rest: seq<string>)
    requires forall i :: 0 <= i < |line| ==> WellFormedClaude(line[i])
    requires IsRest(rest)
    ensures ClaudeOptions(host, RenderClaude(line, rest)) == SessionsNamed(host, line)
  {
    if line == [] {
      if rest != [] { ClaudeWords(rest[0]); }
    } else {
      hide WellFormedClaude, NamedId;
      RenderedClaudeNames(host, line[1..], rest);
      ClaudeStep(host, line[0], RenderClaude(line[1..], rest));
    }
  }

  // ---------- What one launch shows ----------

  /** The evidence a single process gives. */
  ghost function Shows(agent: Agent, host: Host, argv: Argv): Evidence { EvidenceOf(agent, host, [argv]) }

  lemma ShowsIs(agent: Agent, host: Host, argv: Argv)
    ensures Shows(agent, host, argv) == Conclude(FindingOf(agent, host, argv))
  {
    hide FindingOf, Conclude;
    var f := FindingOf(agent, host, argv);
    assert [argv][1..] == [];
    assert Findings(agent, host, []) == NOTHING;
    assert Both(f, NOTHING) == f;
  }

  lemma ConcludeNamed(host: Host, value: string)
    ensures Conclude(NamedId(host, Some(value))) ==
            if host.parseUuid(value).Some? then ConfirmedResume(host.parseUuid(value).value) else Ambiguous
    ensures Conclude(NOTHING) == NoResumeArg && Conclude(INVALID) == Ambiguous
  {
    if host.parseUuid(value).Some? {
      var id := host.parseUuid(value).value;
      assert |{id}| == 1;
      ConcludeConfirmed(NamedId(host, Some(value)), id);
    }
  }

  /** The operands of a Codex line, those after "--" included. */
  function AllOperands(line: seq<CodexArg>, tail: Option<seq<string>>): seq<string>
  {
    Operands(line) + (if tail.Some? then tail.value else [])
  }

  lemma RenderedCodexFinding(host: Host, bin: string, line: seq<CodexArg>, tail: Option<seq<string>>)
    requires forall i :: 0 <= i < |line| ==> WellFormed(line[i])
    ensures var ops := AllOperands(line, tail);
      CodexFinding(host, Some([bin] + Render(line, tail))) ==
      if ops == [] || ops[0] != "resume" then NOTHING
      else if |ops| == 1 || Last in line then INVALID
      else NamedId(host, Some(ops[1]))
  {
    var argv := [bin] + Render(line, tail);
    AppendHead([bin], Render(line, tail));
    AppendEmpty(Render(line, tail));
    assert Drop(argv, 1) == Render(line, tail);
    hide WellFormed, CodexArgs, Render, NamedId;
    RenderedLineParses(line, tail);
  }

  /** A Codex launch names a thread exactly when its first two operands are "resume" and a thread id and
      --last does not appear; it shows nothing exactly when its first operand is not "resume"; any
      other launch is ambiguous. */
  lemma CodexLaunchShows(host: Host, bin: string, line: seq<CodexArg>, tail: Option<seq<string>>)
    requires forall i :: 0 <= i < |line| ==> WellFormed(line[i])
    ensures var ops := AllOperands(line, tail);
      Shows(Codex, host, Some([bin] + Render(line, tail))) ==
      if ops == [] || ops[0] != "resume" then NoResumeArg
      else if |ops| > 1 && Last !in line && host.parseUuid(ops[1]).Some? then
        ConfirmedResume(host.parseUuid(ops[1]).value)
      else Ambiguous
  {
    hide WellFormed, Conclude, Shows, NamedId, Render;
    var ops := AllOperands(line, tail);
    RenderedCodexFinding(host, bin, line, tail);
    ShowsIs(Codex, host, Some([bin] + Render(line, tail)));
    ConcludeNamed(host, if |ops| > 1 then ops[1] else "");
  }

  lemma {:induction false} ImageStops(line: seq<CodexArg>, image: string, rest: seq<string>)
    requires (forall i :: 0 <= i < |line| ==> WellFormed(line[i])) && IsImage(image) && image != "--"
    ensures CodexArgs(Render(line, None) + ([image] + rest)) == None
  {
    if line == [] {
      AppendEmpty([image] + rest);
      AppendHead([image], rest);
      hide IsImage;
    } else {
      RenderedHead(line, None);
      hide WellFormed, IsImage, Render, RenderOne, CodexArgs;
      AppendAssoc(RenderOne(line[0]), Render(line[1..], None), [image] + rest);
      StepOver(line[0], Render(line[1..], None) + ([image] + rest));
      ImageStops(line[1..], image, rest);
      PrependNone(OperandsOf(line[0]), line[0].Last?);
    }
  }

  /** An image option before "--", or an unreadable argument vector, is ambiguous whatever else it says. */
  lemma UnreadableIsAmbiguous(host: Host, bin: string, line: seq<CodexArg>, image: string, rest: seq<string>)
    requires forall i :: 0 <= i < |line| ==> WellFormed(line[i])
    requires image == "-i" || image == "--image" || "--image=" <= image
    ensures Shows(Codex, host, Some([bin] + (Render(line, None) + ([image] + rest)))) == Ambiguous
    ensures Shows(Codex, host, None) == Ambiguous && Shows(Claude, host, None) == Ambiguous
  {
    ConcludeNamed(host, "");
    ShowsIs(Codex, host, None);
    ShowsIs(Claude, host, None);
    var args := Render(line, None) + ([image] + rest);
    ImageStops(line, image, rest);
    ShowsIs(Codex, host, Some([bin] + args));
    AppendHead([bin], args);
    AppendEmpty(args);
    assert Drop([bin] + args, 1) == args;
    hide WellFormed, Render, CodexArgs, Conclude, Shows;
  }

  /** How Claude may be started: directly, or by a shell or node. */
  ghost predicate StartsClaude(host: Host, start: seq<string>)
  {
    || (|start| == 1 && host.fileName(start[0]) in [Some("claude"), Some("claude.exe")])
    || (|start| == 2 && host.fileName(start[1]) in [Some("claude"), Some("claude.exe")]
        && host.fileName(start[0]) in
           [Some("sh"), Some("bash"), Some("dash"), Some("zsh"), Some("node"), Some("nodejs")])
  }

  lemma ProgramNames(host: Host, arg: string)
    ensures IsClaude(host, arg) <==> host.fileName(arg) in [Some("claude"), Some("claude.exe")]
    ensures IsWrapper(host, arg) <==>
            host.fileName(arg) in [Some("sh"), Some("bash"), Some("dash"), Some("zsh"), Some("node"), Some("nodejs")]
  {}

  lemma WrapperIsNotClaude(host: Host, arg: string)
    requires IsWrapper(host, arg)
    ensures !IsClaude(host, arg)
  {}

  /** The arguments of Claude are those after its start, and there are none exactly without one. */
  lemma ClaudeArgsIff(host: Host, start: seq<string>, args: seq<string>)
    requires StartsClaude(host, start)
    ensures ClaudeArgs(host, start + args) == Some(args)
  {
    var argv := start + args;
    ProgramNames(host, start[0]);
    assert argv[0] == start[0];
    if |start| == 2 {
      ProgramNames(host, start[1]);
      assert argv[1] == start[1] && argv[2..] == args;
      WrapperIsNotClaude(host, start[0]);
    } else {
      assert argv[1..] == args;
    }
    hide IsClaude, IsWrapper;
  }

  lemma NotClaudeIsAmbiguous(host: Host, argv: seq<string>)
    requires !exists n :: 1 <= n <= 2 && n <= |argv| && StartsClaude(host, argv[..n])
    ensures Shows(Claude, host, Some(argv)) == Ambiguous
  {
    ConcludeNamed(host, "");
    ShowsIs(Claude, host, Some(argv));
    if |argv| > 0 {
      ProgramNames(host, argv[0]);
      assert argv[..1][0] == argv[0];
      assert !StartsClaude(host, argv[..1]);
    }
    if |argv| > 1 {
      ProgramNames(host, argv[1]);
      assert argv[..2][0] == argv[0] && argv[..2][1] == argv[1];
      assert !StartsClaude(host, argv[..2]);
    }
    hide IsClaude, IsWrapper, Conclude, Shows;
  }

  /** The values of the session options of a line, in order. */
  function SessionValues(line: seq<ClaudeArg>): seq<string>
  {
    if line == [] then []
    else (if line[0].Session? || line[0].InlineSession? then [line[0].value] else []) + SessionValues(line[1..])
  }

  /** The finding names the ids these values parse to, and is invalid if one does not parse. */
  ghost predicate GivenBy(host: Host, f: Finding, vs: seq<string>)
  {
    && (f.invalid <==> exists i :: 0 <= i < |vs| && host.parseUuid(vs[i]).None?)
    && forall id :: id in f.ids <==> exists i :: 0 <= i < |vs| && host.parseUuid(vs[i]) == Some(id)
  }

  lemma GivenByMore(host: Host, f: Finding, v: string, vs: seq<string>)
    requires GivenBy(host, f, vs)
    ensures GivenBy(host, Both(NamedId(host, Some(v)), f), [v] + vs)
  {
    var all := [v] + vs;
    assert all[0] == v && forall i :: 0 <= i < |vs| ==> all[i + 1] == vs[i];
    forall i | 0 <= i < |all| ensures i > 0 ==> all[i] == vs[i - 1] {}
  }

  lemma {:induction false} SessionsNamedIff(host: Host, line: seq<ClaudeArg>)
    ensures GivenBy(host, SessionsNamed(host, line), SessionValues(line))
  {
    if line != [] {
      SessionsNamedIff(host, line[1..]);
      hide GivenBy, NamedId;
      var f, vs := SessionsNamed(host, line[1..]), SessionValues(line[1..]);
      if line[0].Session? || line[0].InlineSession? {
        GivenByMore(host, f, line[0].value, vs);
      } else {
        assert Both(NOTHING, f) == f;
        AppendEmpty(vs);
      }
    }
  }

  /** A Claude launch shows nothing exactly when it has no session option; it names a session exactly
      when it has one and all of them give that id; otherwise it is ambiguous. */
  lemma ClaudeLaunchShows(host: Host, start: seq<string>, line: seq<ClaudeArg>, rest: seq<string>)
    requires StartsClaude(host, start) && forall i :: 0 <= i < |line| ==> WellFormedClaude(line[i])
    requires IsRest(rest)
    ensures var e, vs := Shows(Claude, host, Some(start + RenderClaude(line, rest))), SessionValues(line);
      && (e == NoResumeArg <==> vs == [])
      && (forall id :: e == ConfirmedResume(id) <==>
                         vs != [] && forall i :: 0 <= i < |vs| ==> host.parseUuid(vs[i]) == Some(id))
      && (e.NoResumeArg? || e.ConfirmedResume? || e.Ambiguous?)
  {
    hide *;
    ClaudeLaunchFinding(host, start, line, rest);
    ShowsIs(Claude, host, Some(start + RenderClaude(line, rest)));
    SessionsNamedIff(host, line);
    ConcludeValues(host, SessionsNamed(host, line), SessionValues(line));
  }

  lemma ClaudeLaunchFinding(host: Host, start: seq<string>, line: seq<ClaudeArg>, rest: seq<string>)
    requires StartsClaude(host, start) && forall i :: 0 <= i < |line| ==> WellFormedClaude(line[i])
    requires IsRest(rest)
    ensures FindingOf(Claude, host, Some(start + RenderClaude(line, rest))) == SessionsNamed(host, line)
  {
    hide WellFormedClaude, RenderClaude, SessionsNamed, ClaudeArgs, ClaudeOptions, StartsClaude, IsRest;
    ClaudeArgsIff(host, start, RenderClaude(line, rest));
    RenderedClaudeNames(host, line, rest);
  }

  lemma ConcludeValues(host: Host, f: Finding, vs: seq<string>)
    requires GivenBy(host, f, vs)
    ensures Conclude(f) == NoResumeArg <==> vs == []
    ensures forall id :: Conclude(f) == ConfirmedResume(id) <==>
                           vs != [] && forall i :: 0 <= i < |vs| ==> host.parseUuid(vs[i]) == Some(id)
    ensures !Conclude(f).Unknown?
  {
    if vs != [] && !f.invalid {
      var id := host.parseUuid(vs[0]).value;
      assert id in f.ids;
      forall other ensures Conclude(f) == ConfirmedResume(other) <==>
                           forall i :: 0 <= i < |vs| ==> host.parseUuid(vs[i]) == Some(other)
      {
        if forall i :: 0 <= i < |vs| ==> host.parseUuid(vs[i]) == Some(other) {
          assert f.ids == {other};
          ConcludeConfirmed(f, other);
        } else if Conclude(f) == ConfirmedResume(other) {
          SingletonOf(f.ids, id);
          ConcludeConfirmed(f, id);
          forall i | 0 <= i < |vs| ensures host.parseUuid(vs[i]) == Some(other) {
            assert host.parseUuid(vs[i]).value in f.ids;
          }
        }
      }
    }
  }

  /** A session option at the very end has no value: the launch is ambiguous. */
  lemma {:induction false} DanglingSession(host: Host, line: seq<ClaudeArg>, name: string)
    requires (forall i :: 0 <= i < |line| ==> WellFormedClaude(line[i])) && IsSessionOption(name)
    ensures ClaudeOptions(host, RenderClaude(line, [name])).invalid
  {
    if line == [] {
      ClaudeWords(name);
      InlineShape(name, "");
    } else {
      hide WellFormedClaude, NamedId, IsSessionOption;
      DanglingSession(host, line[1..], name);
      ClaudeStep(host, line[0], RenderClaude(line[1..], [name]));
    }
  }
}
