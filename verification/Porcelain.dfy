/** Parsers of git's machine-readable output: `status --porcelain -z` and `worktree list --porcelain`. */
module Porcelain {
  import opened Text

  // ---------- Status ----------

  newtype byte = x: int | 0 <= x < 256

  type Bytes = seq<byte>

  const SPACE: byte := 32
  const QUESTION: byte := 63
  const RENAMED: byte := 82
  const COPIED: byte := 67

  datatype StatusEntry = StatusEntry(staged: byte, unstaged: byte, path: Bytes, origPath: Option<Bytes>,
                                     isUntracked: bool)

  datatype Status = Status(uncommittedTracked: nat, untracked: nat, entries: seq<StatusEntry>)

  /** Number of bytes before the first NUL. */
  function FieldLength(s: Bytes): (n: nat)
    ensures n <= |s|
    ensures n < |s| ==> s[n] == 0
    ensures forall i :: 0 <= i < n ==> s[i] != 0
  {
    if s == [] || s[0] == 0 then 0 else 1 + FieldLength(s[1..])
  }

  /** `split` on NUL: always one more field than NULs. */
  function Fields(s: Bytes): seq<Bytes>
    decreases |s|
  {
    var n := FieldLength(s);
    if n == |s| then [s] else [s[..n]] + Fields(s[n + 1..])
  }

  predicate HasOrigin(staged: byte, unstaged: byte)
  {
    staged == RENAMED || unstaged == RENAMED || staged == COPIED || unstaged == COPIED
  }

  /** The entry a field starts, with the field after it if that one belongs to it. */
  function EntryFrom(part: Bytes, next: Option<Bytes>): StatusEntry
    requires |part| >= 4
  {
    var staged, unstaged := part[0], part[1];
    StatusEntry(staged, unstaged, part[3..],
                if HasOrigin(staged, unstaged) && next.Some? && next.value != [] then next else None,
                staged == QUESTION && unstaged == QUESTION)
  }

  predicate IsChange(e: StatusEntry) { !e.isUntracked && (e.staged != SPACE || e.unstaged != SPACE) }

  function AddFirst(e: StatusEntry, s: Status): Status
  {
    Status(s.uncommittedTracked + (if IsChange(e) then 1 else 0),
           s.untracked + (if e.isUntracked then 1 else 0), [e] + s.entries)
  }

  function ParseFields(parts: seq<Bytes>): Status
    decreases |parts|
  {
    if parts == [] then Status(0, 0, [])
    else if |parts[0]| < 4 then ParseFields(parts[1..])
    else
      var e := EntryFrom(parts[0], if |parts| > 1 then Some(parts[1]) else None);
      var used := if HasOrigin(e.staged, e.unstaged) && |parts| > 1 then 2 else 1;
      AddFirst(e, ParseFields(parts[used..]))
  }

  function Append(a: Status, b: Status): Status
  {
    Status(a.uncommittedTracked + b.uncommittedTracked, a.untracked + b.untracked, a.entries + b.entries)
  }

  lemma AppendFirst(a: Status, e: StatusEntry, b: Status)
    ensures Append(a, AddFirst(e, b)) == Append(Append(a, AddFirst(e, Status(0, 0, []))), b)
  {
    assert a.entries + ([e] + b.entries) == (a.entries + ([e] + [])) + b.entries;
  }

  method GetWorktreeStatus(out: Bytes) returns (r: Status)
    ensures r == ParseFields(Fields(out))
  {
    hide EntryFrom, HasOrigin, IsChange;
    var parts := Fields(out);
    var entries: seq<StatusEntry>, uncommittedTracked, untracked := [], 0, 0;
    var i := 0;
    assert parts[0..] == parts;
    while i < |parts|
      invariant 0 <= i <= |parts|
      invariant Append(Status(uncommittedTracked, untracked, entries), ParseFields(parts[i..])) == ParseFields(parts)
    {
      ghost var before := Status(uncommittedTracked, untracked, entries);
      var part := parts[i];
      assert parts[i..][0] == part && parts[i..][1..] == parts[i + 1..];
      i := i + 1;
      if |part| >= 4 {
        ghost var k := i;
        var origin: Option<Bytes> := None;
        if HasOrigin(part[0], part[1]) && i < |parts| {
          assert parts[k - 1..][2..] == parts[k + 1..];
          if parts[i] != [] { origin := Some(parts[i]); }
          i := i + 1;
        }
        var e := StatusEntry(part[0], part[1], part[3..], origin, part[0] == QUESTION && part[1] == QUESTION);
        assert e == EntryFrom(part, if k < |parts| then Some(parts[k]) else None) by {
          EntryIs(part, if k < |parts| then Some(parts[k]) else None, e);
        }
        AppendFirst(before, e, ParseFields(parts[i..]));
        if e.isUntracked {
          untracked := untracked + 1;
        } else if e.staged != SPACE || e.unstaged != SPACE {
          uncommittedTracked := uncommittedTracked + 1;
        }
        entries := entries + [e];
        assert Status(uncommittedTracked, untracked, entries) == Append(before, AddFirst(e, Status(0, 0, []))) by {
          CountIs(before, e);
        }
      }
    }
    assert entries + [] == entries;
    r := Status(uncommittedTracked, untracked, entries);
  }

  lemma EntryIs(part: Bytes, next: Option<Bytes>, e: StatusEntry)
    requires |part| >= 4
    requires e.staged == part[0] && e.unstaged == part[1] && e.path == part[3..]
    requires e.isUntracked == (part[0] == QUESTION && part[1] == QUESTION)
    requires e.origPath == if HasOrigin(part[0], part[1]) && next.Some? && next.value != [] then next else None
    ensures e == EntryFrom(part, next)
  {}

  lemma CountIs(before: Status, e: StatusEntry)
    ensures Append(before, AddFirst(e, Status(0, 0, []))) ==
            Status(before.uncommittedTracked +
                     (if !e.isUntracked && (e.staged != SPACE || e.unstaged != SPACE) then 1 else 0),
                   before.untracked + (if e.isUntracked then 1 else 0),
                   before.entries + [e])
  {
    assert [e] + [] == [e];
  }

  // ---------- Status round trip ----------

  ghost predicate NulFree(s: Bytes) { forall i :: 0 <= i < |s| ==> s[i] != 0 }

  ghost predicate WellFormed(e: StatusEntry)
  {
    && e.staged != 0 && e.unstaged != 0
    && e.path != [] && NulFree(e.path)
    && (e.origPath.Some? <==> Is(e.staged, 'R') || Is(e.staged, 'C') || Is(e.unstaged, 'R') || Is(e.unstaged, 'C'))
    && (e.origPath.Some? ==> e.origPath.value != [] && NulFree(e.origPath.value))
    && (e.isUntracked <==> Is(e.staged, '?') && Is(e.unstaged, '?'))
  }

  predicate Is(b: byte, c: char) { b as int == c as int }

  function RenderEntry(e: StatusEntry, rest: Bytes): Bytes
  {
    [e.staged, e.unstaged, SPACE] + e.path + [0] + (if e.origPath.Some? then e.origPath.value + [0] + rest else rest)
  }

  function RenderStatus(es: seq<StatusEntry>): Bytes
  {
    if es == [] then [] else RenderEntry(es[0], RenderStatus(es[1..]))
  }

  function CountChanges(es: seq<StatusEntry>): nat
  {
    if es == [] then 0 else (if Both(es[0], '?') || Both(es[0], ' ') then 0 else 1) + CountChanges(es[1..])
  }

  /** Both columns show `c`. */
  predicate Both(e: StatusEntry, c: char) { Is(e.staged, c) && Is(e.unstaged, c) }

  function CountUntracked(es: seq<StatusEntry>): nat
  {
    if es == [] then 0 else (if Both(es[0], '?') then 1 else 0) + CountUntracked(es[1..])
  }

  lemma FieldsCons(f: Bytes, rest: Bytes)
    requires NulFree(f)
    ensures Fields(f + [0] + rest) == [f] + Fields(rest)
  {
    var s := f + [0] + rest;
    assert s[|f|] == 0;
    assert forall i :: 0 <= i < |f| ==> s[i] == f[i];
    assert FieldLength(s) == |f|;
    assert s[..|f|] == f && s[|f| + 1..] == rest;
  }

  lemma FieldsOfEntry(e: StatusEntry, rest: Bytes)
    requires WellFormed(e)
    ensures Fields(RenderEntry(e, rest)) ==
            [[e.staged, e.unstaged, SPACE] + e.path] +
            (if e.origPath.Some? then [e.origPath.value] else []) + Fields(rest)
  {
    var head := [e.staged, e.unstaged, SPACE] + e.path;
    assert NulFree(head);
    if e.origPath.Some? {
      FieldsCons(head, e.origPath.value + [0] + rest);
      FieldsCons(e.origPath.value, rest);
    } else {
      FieldsCons(head, rest);
    }
  }

  lemma ParseEntry(e: StatusEntry, parts: seq<Bytes>)
    requires WellFormed(e)
    ensures ParseFields([[e.staged, e.unstaged, SPACE] + e.path] +
                        (if e.origPath.Some? then [e.origPath.value] else []) + parts) ==
            AddFirst(e, ParseFields(parts))
  {
    var head := [e.staged, e.unstaged, SPACE] + e.path;
    var all := [head] + (if e.origPath.Some? then [e.origPath.value] else []) + parts;
    assert all[0] == head && head[0] == e.staged && head[1] == e.unstaged && head[3..] == e.path;
    if e.origPath.Some? {
      assert all[1] == e.origPath.value && all[2..] == parts;
    } else {
      assert all[1..] == parts;
    }
  }

  lemma CountsOf(e: StatusEntry)
    requires WellFormed(e)
    ensures IsChange(e) <==> !Both(e, '?') && !Both(e, ' ')
    ensures e.isUntracked <==> Both(e, '?')
  {}

  lemma StatusCons(es: seq<StatusEntry>)
    requires es != [] && WellFormed(es[0])
    ensures var rest := es[1..];
      AddFirst(es[0], Status(CountChanges(rest), CountUntracked(rest), rest)) ==
      Status(CountChanges(es), CountUntracked(es), es)
  {
    CountsOf(es[0]);
    hide WellFormed, IsChange, Both;
    assert es == [es[0]] + es[1..];
  }

  /** Fields too short for an entry are skipped; a rename without a second field, or with an empty one,
      is an entry without an original path. */
  lemma OddFields(staged: byte, unstaged: byte, path: Bytes, part: Bytes, rest: seq<Bytes>)
    requires path != [] && |part| < 4
    ensures ParseFields([part] + rest) == ParseFields(rest)
    ensures Is(staged, 'R') || Is(unstaged, 'C') ==>
              var e := StatusEntry(staged, unstaged, path, None, false);
              && ParseFields([[staged, unstaged, SPACE] + path]) == Status(1, 0, [e])
              && ParseFields([[staged, unstaged, SPACE] + path, []] + rest) == AddFirst(e, ParseFields(rest))
  {
    AppendHead([part], rest);
    AppendEmpty(rest);
    var head := [staged, unstaged, SPACE] + path;
    assert head[0] == staged && head[1] == unstaged && head[3..] == path;
    var one: seq<Bytes>, both: seq<Bytes> := [head], [head, []] + rest;
    assert one[1..] == [];
    assert both[0] == head && both[1] == [] && both[2..] == rest;
  }

  /** Parsing the rendering of well-formed entries gives them back in order, with their counts. */
  lemma {:induction false} StatusRoundTrip(es: seq<StatusEntry>)
    requires forall i :: 0 <= i < |es| ==> WellFormed(es[i])
    ensures ParseFields(Fields(RenderStatus(es))) == Status(CountChanges(es), CountUntracked(es), es)
  {
    hide WellFormed;
    if es == [] {
      assert Fields([]) == [[]];
      assert ParseFields([[]][1..]) == Status(0, 0, []);
    } else {
      StatusCons(es);
      hide RenderEntry, Fields, ParseFields, AddFirst, CountChanges, CountUntracked;
      StatusRoundTrip(es[1..]);
      FieldsOfEntry(es[0], RenderStatus(es[1..]));
      ParseEntry(es[0], Fields(RenderStatus(es[1..])));
    }
  }

  // ---------- Worktrees ----------

  datatype WorktreeEntry = WorktreeEntry(path: string, branch: Option<string>)

  /** The fields of the record being read. */
  datatype Current = Current(path: Option<string>, head: Option<string>, branch: Option<string>)

  const NO_RECORD := Current(None, None, None)

  predicate IsComplete(c: Current) { c.path.Some? && c.head.Some? }

  function Emitted(c: Current): seq<WorktreeEntry>
  {
    if IsComplete(c) then [WorktreeEntry(c.path.value, c.branch)] else []
  }

  /** A blank line takes path and head; the branch is taken only with a complete record. */
  function AfterBlank(c: Current): Current { Current(None, None, if IsComplete(c) then None else c.branch) }

  const WORKTREE := "worktree "
  const HEAD := "HEAD "
  const BRANCH := "branch "
  const HEADS := "refs/heads/"

  function BranchName(reference: string): Option<string>
  {
    if HEADS <= reference then Some(reference[|HEADS|..]) else None
  }

  function AfterField(c: Current, line: string): Current
  {
    if WORKTREE <= line then c.(path := Some(line[|WORKTREE|..]))
    else if HEAD <= line then c.(head := Some(line[|HEAD|..]))
    else if BRANCH <= line then c.(branch := BranchName(line[|BRANCH|..]))
    else c
  }

  function ParseLines(lines: seq<string>, c: Current): seq<WorktreeEntry>
    decreases |lines|
  {
    if lines == [] then Emitted(c)
    else
      var line := Trim(lines[0]);
      if line == "" then Emitted(c) + ParseLines(lines[1..], AfterBlank(c))
      else ParseLines(lines[1..], AfterField(c, line))
  }

  method ListWorktrees(out: string) returns (entries: seq<WorktreeEntry>)
    ensures entries == ParseLines(Lines(out), NO_RECORD)
  {
    hide Trim, Lines, BranchName;
    entries := [];
    var path: Option<string>, head: Option<string>, branch: Option<string> := None, None, None;
    var lines := Lines(out);
    var i := 0;
    assert lines[0..] == lines;
    while i < |lines|
      invariant 0 <= i <= |lines|
      invariant ParseLines(lines, NO_RECORD) == entries + ParseLines(lines[i..], Current(path, head, branch))
    {
      var line := Trim(lines[i]);
      assert lines[i..][0] == lines[i] && lines[i..][1..] == lines[i + 1..];
      if line == "" {
        if path.Some? && head.Some? {
          entries := entries + [WorktreeEntry(path.value, branch)];
          branch := None;
        }
        path, head := None, None;
      } else if WORKTREE <= line {
        path := Some(line[|WORKTREE|..]);
      } else if HEAD <= line {
        head := Some(line[|HEAD|..]);
      } else if BRANCH <= line {
        branch := BranchName(line[|BRANCH|..]);
      }
      i := i + 1;
    }
    if path.Some? && head.Some? {
      entries := entries + [WorktreeEntry(path.value, branch)];
    }
  }

  // ---------- Worktree round trip ----------

  datatype BranchLine = NoBranch | OnBranch(name: string) | OtherRef(reference: string)

  /** A record of the listing; `notes` are its other lines, such as "bare" or "detached". */
  datatype Record = Record(path: string, head: Option<string>, branch: BranchLine, notes: seq<string>)

  /** Text that survives as the value of a line: not empty, on one line, not ending in whitespace. */
  ghost predicate IsValue(s: string) { s != "" && '\n' !in s && !IsWhitespace(s[|s| - 1]) }

  ghost predicate IsNote(s: string)
  {
    IsValue(s) && !IsWhitespace(s[0]) && !(WORKTREE <= s) && !(HEAD <= s) && !(BRANCH <= s)
  }

  ghost predicate WellFormedRecord(r: Record)
  {
    && IsValue(r.path) && (r.head.Some? ==> IsValue(r.head.value))
    && (r.branch.OnBranch? ==> IsValue(r.branch.name))
    && (r.branch.OtherRef? ==> IsValue(r.branch.reference) && !(HEADS <= r.branch.reference))
    && forall i :: 0 <= i < |r.notes| ==> IsNote(r.notes[i])
  }

  function BranchLines(b: BranchLine): seq<string>
  {
    match b
    case NoBranch => []
    case OnBranch(name) => ["branch " + ("refs/heads/" + name)]
    case OtherRef(reference) => ["branch " + reference]
  }

  function RecordLines(r: Record): seq<string>
  {
    ["worktree " + r.path] + (if r.head.Some? then ["HEAD " + r.head.value] else []) + BranchLines(r.branch) + r.notes
  }

  /** Records separated by blank lines; the last blank line may be missing. */
  function ListingLines(rs: seq<Record>, finalBlank: bool): seq<string>
  {
    if rs == [] then []
    else RecordLines(rs[0]) + (if |rs| > 1 || finalBlank then [""] else []) + ListingLines(rs[1..], finalBlank)
  }

  /** What the records mean: one entry for each that has a HEAD. */
  function Expected(rs: seq<Record>): seq<WorktreeEntry>
  {
    if rs == [] then []
    else
      (if rs[0].head.Some? then [WorktreeEntry(rs[0].path, OwnBranch(rs[0]))] else []) + Expected(rs[1..])
  }

  function OwnBranch(r: Record): Option<string> { if r.branch.OnBranch? then Some(r.branch.name) else None }

  /** The branch in force at the end of a record that began with `carried`. */
  function BranchAt(r: Record, carried: Option<string>): Option<string>
  {
    match r.branch
    case NoBranch => carried
    case OnBranch(name) => Some(name)
    case OtherRef(_) => None
  }

  function Carry(r: Record, carried: Option<string>): Option<string>
  {
    if r.head.Some? then None else BranchAt(r, carried)
  }

  /** What the parser makes of the records, starting with a branch left over. */
  function Entries(rs: seq<Record>, carried: Option<string>): seq<WorktreeEntry>
  {
    if rs == [] then []
    else
      (if rs[0].head.Some? then [WorktreeEntry(rs[0].path, BranchAt(rs[0], carried))] else [])
      + Entries(rs[1..], Carry(rs[0], carried))
  }

  lemma TrimValue(s: string)
    requires IsValue(s) && !IsWhitespace(s[0])
    ensures Trim(s) == s
  {
    DropWhileStops(s, IsWhitespace);
  }

  lemma TrimField(key: string, value: string)
    requires key in {WORKTREE, HEAD, BRANCH} && IsValue(value)
    ensures Trim(key + value) == key + value && IsLine(key + value)
  {
    var s := key + value;
    assert s[0] == key[0] && s[|s| - 1] == value[|value| - 1];
    TrimValue(s);
  }

  lemma FieldStep(key: string, value: string, rest: seq<string>, c: Current)
    requires key in {WORKTREE, HEAD, BRANCH} && IsValue(value)
    ensures ParseLines([key + value] + rest, c) ==
            ParseLines(rest, if key == WORKTREE then c.(path := Some(value))
                             else if key == HEAD then c.(head := Some(value))
                             else c.(branch := BranchName(value)))
  {
    hide Trim;
    var line := key + value;
    TrimField(key, value);
    PrefixAndRest(key, value);
    assert ([line] + rest)[0] == line && ([line] + rest)[1..] == rest;
    assert line[0] == key[0];
    assert WORKTREE[0] == 'w' && HEAD[0] == 'H' && BRANCH[0] == 'b';
  }

  lemma {:induction false} NotesStep(notes: seq<string>, rest: seq<string>, c: Current)
    requires forall i :: 0 <= i < |notes| ==> IsNote(notes[i])
    ensures ParseLines(notes + rest, c) == ParseLines(rest, c)
  {
    if notes == [] {
      assert notes + rest == rest;
    } else {
      hide Trim;
      TrimValue(notes[0]);
      assert (notes + rest)[0] == notes[0] && (notes + rest)[1..] == notes[1..] + rest;
      NotesStep(notes[1..], rest, c);
    }
  }

  lemma BranchValue(r: Record)
    requires WellFormedRecord(r)
    ensures r.branch.OnBranch? ==>
              IsValue(HEADS + r.branch.name) && BranchName(HEADS + r.branch.name) == Some(r.branch.name)
    ensures r.branch.OtherRef? ==> BranchName(r.branch.reference) == None
  {
    if r.branch.OnBranch? { PrefixAndRest(HEADS, r.branch.name); }
  }

  lemma BranchStep(r: Record, rest: seq<string>, c: Current)
    requires WellFormedRecord(r)
    ensures ParseLines(BranchLines(r.branch) + rest, c) == ParseLines(rest, c.(branch := BranchAt(r, c.branch)))
  {
    hide Trim, ParseLines, IsValue;
    BranchValue(r);
    match r.branch
    case NoBranch => assert [] + rest == rest;
    case OnBranch(name) => FieldStep(BRANCH, HEADS + name, rest, c);
    case OtherRef(reference) => FieldStep(BRANCH, reference, rest, c);
  }

  /** The lines of one record set exactly its own fields. */
  lemma RecordStep(r: Record, rest: seq<string>, carried: Option<string>)
    requires WellFormedRecord(r)
    ensures ParseLines(RecordLines(r) + rest, Current(None, None, carried)) ==
            ParseLines(rest, Current(Some(r.path), r.head, BranchAt(r, carried)))
  {
    hide ParseLines, BranchLines, IsValue, IsNote;
    var afterBranch := r.notes + rest;
    var afterHead := BranchLines(r.branch) + afterBranch;
    var headLines := if r.head.Some? then [HEAD + r.head.value] else [];
    assert RecordLines(r) + rest == [WORKTREE + r.path] + (headLines + afterHead);
    FieldStep(WORKTREE, r.path, headLines + afterHead, Current(None, None, carried));
    if r.head.Some? {
      FieldStep(HEAD, r.head.value, afterHead, Current(Some(r.path), None, carried));
    } else {
      assert headLines + afterHead == afterHead;
    }
    BranchStep(r, afterBranch, Current(Some(r.path), r.head, carried));
    NotesStep(r.notes, rest, Current(Some(r.path), r.head, BranchAt(r, carried)));
  }

  lemma BlankStep(rest: seq<string>, c: Current)
    ensures ParseLines([""] + rest, c) == Emitted(c) + ParseLines(rest, AfterBlank(c))
  {
    assert ([""] + rest)[1..] == rest;
  }

  lemma EntriesStep(rs: seq<Record>, carried: Option<string>)
    requires rs != []
    ensures var c := Current(Some(rs[0].path), rs[0].head, BranchAt(rs[0], carried));
      && AfterBlank(c) == Current(None, None, Carry(rs[0], carried))
      && Entries(rs, carried) == Emitted(c) + Entries(rs[1..], Carry(rs[0], carried))
  {}

  /** A record followed by a blank line, then anything. */
  lemma RecordThenBlank(r: Record, rest: seq<string>, carried: Option<string>)
    requires WellFormedRecord(r)
    ensures var c := Current(Some(r.path), r.head, BranchAt(r, carried));
      ParseLines(RecordLines(r) + ([""] + rest), Current(None, None, carried)) ==
      Emitted(c) + ParseLines(rest, AfterBlank(c))
  {
    hide ParseLines, RecordLines, WellFormedRecord, Emitted, AfterBlank, BranchAt;
    RecordStep(r, [""] + rest, carried);
    BlankStep(rest, Current(Some(r.path), r.head, BranchAt(r, carried)));
  }

  lemma RecordAtEnd(r: Record, carried: Option<string>)
    requires WellFormedRecord(r)
    ensures ParseLines(RecordLines(r), Current(None, None, carried)) ==
            Emitted(Current(Some(r.path), r.head, BranchAt(r, carried)))
  {
    hide ParseLines, RecordLines, WellFormedRecord, Emitted, BranchAt;
    RecordStep(r, [], carried);
    assert RecordLines(r) + [] == RecordLines(r);
    EmptyListing(Current(Some(r.path), r.head, BranchAt(r, carried)));
  }

  lemma ListingCons(rs: seq<Record>, finalBlank: bool)
    requires rs != []
    ensures |rs| > 1 || finalBlank ==>
              ListingLines(rs, finalBlank) == RecordLines(rs[0]) + ([""] + ListingLines(rs[1..], finalBlank))
    ensures |rs| == 1 && !finalBlank ==> ListingLines(rs, finalBlank) == RecordLines(rs[0])
  {
    hide RecordLines;
    var rest := ListingLines(rs[1..], finalBlank);
    assert RecordLines(rs[0]) + [""] + rest == RecordLines(rs[0]) + ([""] + rest);
    if |rs| == 1 { assert rs[1..] == []; assert RecordLines(rs[0]) + [] + [] == RecordLines(rs[0]); }
  }

  /** What the parser makes of any well-formed listing, with or without its last blank line. */
  lemma {:induction false} ListingParses(rs: seq<Record>, finalBlank: bool, carried: Option<string>)
    requires forall i :: 0 <= i < |rs| ==> WellFormedRecord(rs[i])
    ensures ParseLines(ListingLines(rs, finalBlank), Current(None, None, carried)) == Entries(rs, carried)
    decreases |rs|
  {
    hide ParseLines, RecordLines, WellFormedRecord, ListingLines, Entries, Emitted, AfterBlank, BranchAt, Carry;
    if rs == [] {
      NoRecords(finalBlank, carried);
    } else {
      ListingCons(rs, finalBlank);
      EntriesStep(rs, carried);
      if |rs| > 1 || finalBlank {
        RecordThenBlank(rs[0], ListingLines(rs[1..], finalBlank), carried);
        ListingParses(rs[1..], finalBlank, Carry(rs[0], carried));
      } else {
        RecordAtEnd(rs[0], carried);
        assert rs[1..] == [];
        NoRecords(finalBlank, Carry(rs[0], carried));
        assert Entries(rs[1..], Carry(rs[0], carried)) == [];
      }
    }
  }

  lemma NoRecords(finalBlank: bool, carried: Option<string>)
    ensures ListingLines([], finalBlank) == [] && Entries([], carried) == []
    ensures ParseLines([], Current(None, None, carried)) == []
  {}

  lemma EmptyListing(c: Current)
    ensures ParseLines([], c) == Emitted(c)
  {}

  /** A branch left by HEAD-less records reaches a record with a HEAD and no branch line of its own. */
  ghost predicate Leaks(rs: seq<Record>, carried: Option<string>)
  {
    rs != [] && ((rs[0].head.Some? && rs[0].branch.NoBranch? && carried.Some?) || Leaks(rs[1..], Carry(rs[0], carried)))
  }

  lemma {:induction false} EntriesLength(rs: seq<Record>, carried: Option<string>)
    ensures |Entries(rs, carried)| == |Expected(rs)|
  {
    if rs != [] { EntriesLength(rs[1..], Carry(rs[0], carried)); }
  }

  lemma {:induction false} EntriesExpectedIff(rs: seq<Record>, carried: Option<string>)
    ensures Entries(rs, carried) == Expected(rs) <==> !Leaks(rs, carried)
  {
    if rs != [] {
      var next := Carry(rs[0], carried);
      EntriesExpectedIff(rs[1..], next);
      EntriesLength(rs[1..], next);
      var own := if rs[0].head.Some? then [WorktreeEntry(rs[0].path, BranchAt(rs[0], carried))] else [];
      var meant := if rs[0].head.Some? then [WorktreeEntry(rs[0].path, OwnBranch(rs[0]))] else [];
      var a, b := Entries(rs[1..], next), Expected(rs[1..]);
      assert (own + a)[|own|..] == a && (own + a)[..|own|] == own;
      assert (meant + b)[|meant|..] == b && (meant + b)[..|meant|] == meant;
    }
  }

  lemma {:induction false} LinesAreLines(rs: seq<Record>, finalBlank: bool)
    requires forall i :: 0 <= i < |rs| ==> WellFormedRecord(rs[i])
    ensures AreLines(ListingLines(rs, finalBlank))
  {
    if rs != [] {
      RecordLinesAreLines(rs[0]);
      hide RecordLines, WellFormedRecord;
      LinesAreLines(rs[1..], finalBlank);
      assert IsLine("");
    }
  }

  lemma BranchLinesAreLines(r: Record)
    requires WellFormedRecord(r)
    ensures AreLines(BranchLines(r.branch))
  {
    hide Trim;
    BranchValue(r);
    if r.branch.OnBranch? { TrimField(BRANCH, HEADS + r.branch.name); }
    if r.branch.OtherRef? { TrimField(BRANCH, r.branch.reference); }
  }

  lemma NoteIsLine(s: string)
    requires IsNote(s)
    ensures IsLine(s)
  {}

  lemma RecordLinesAreLines(r: Record)
    requires WellFormedRecord(r)
    ensures AreLines(RecordLines(r))
  {
    hide Trim, IsLine, BranchLines, IsValue, IsNote;
    TrimField(WORKTREE, r.path);
    if r.head.Some? { TrimField(HEAD, r.head.value); }
    BranchLinesAreLines(r);
    forall i | 0 <= i < |r.notes| ensures IsLine(r.notes[i]) { NoteIsLine(r.notes[i]); }
  }

  /** Parsing a written listing gives its entries, with whatever branches are carried along. */
  lemma ListingRead(rs: seq<Record>, finalBlank: bool)
    requires forall i :: 0 <= i < |rs| ==> WellFormedRecord(rs[i])
    ensures ParseLines(Lines(Unlines(ListingLines(rs, finalBlank))), NO_RECORD) == Entries(rs, None)
  {
    hide WellFormedRecord, ParseLines, Lines, Unlines, ListingLines;
    var lines := ListingLines(rs, finalBlank);
    LinesAreLines(rs, finalBlank);
    LinesOfUnlines(lines, "");
    AppendEmpty(Unlines(lines));
    EmptyLines();
    AppendEmpty(lines);
    ListingParses(rs, finalBlank, None);
  }

  /** Parsing a well-formed listing returns exactly the records with a HEAD, each with its own
      branch, if and only if no HEAD-less record leaves a branch to a later one. */
  lemma WorktreeRoundTripIff(rs: seq<Record>, finalBlank: bool)
    requires forall i :: 0 <= i < |rs| ==> WellFormedRecord(rs[i])
    ensures ParseLines(Lines(Unlines(ListingLines(rs, finalBlank))), NO_RECORD) == Expected(rs) <==> !Leaks(rs, None)
  {
    hide WellFormedRecord, ParseLines, Lines, Unlines, ListingLines;
    ListingRead(rs, finalBlank);
    EntriesExpectedIff(rs, None);
  }

  lemma EmptyLines()
    ensures Lines("") == []
  {}

  /** As git prints them, records without a HEAD carry no branch, and then nothing leaks. */
  lemma {:induction false} NoBareBranchNoLeak(rs: seq<Record>)
    requires forall i :: 0 <= i < |rs| ==> rs[i].head.Some? || !rs[i].branch.OnBranch?
    ensures !Leaks(rs, None)
  {
    if rs != [] { NoBareBranchNoLeak(rs[1..]); }
  }

  const BRANCH_ONLY := Record("/a", None, OnBranch("x"), [])
  const HEAD_ONLY := Record("/b", Some("0"), NoBranch, [])

  lemma LeakingEntries()
    ensures Entries([BRANCH_ONLY, HEAD_ONLY], None) == [WorktreeEntry("/b", Some("x"))]
  {
    assert [BRANCH_ONLY, HEAD_ONLY][1..] == [HEAD_ONLY] && [HEAD_ONLY][1..] == [];
    assert Entries([HEAD_ONLY], Some("x")) == [WorktreeEntry("/b", Some("x"))] + Entries([], None);
    AppendEmpty(Entries([HEAD_ONLY], Some("x")));
  }

  /** A HEAD-less record with a branch lends it to a detached one after it: the parser reports the
      second worktree on the first one's branch. */
  lemma BranchCanLeak()
    ensures WellFormedRecord(BRANCH_ONLY) && WellFormedRecord(HEAD_ONLY)
    ensures ParseLines(Lines(Unlines(ListingLines([BRANCH_ONLY, HEAD_ONLY], true))), NO_RECORD) ==
            [WorktreeEntry("/b", Some("x"))]
  {
    assert WellFormedRecord(BRANCH_ONLY) && WellFormedRecord(HEAD_ONLY);
    hide WellFormedRecord, ParseLines, Lines, Unlines, ListingLines, Entries;
    ListingRead([BRANCH_ONLY, HEAD_ONLY], true);
    LeakingEntries();
  }
}
