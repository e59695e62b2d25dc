/** The walk over a process table that decides whether an agent lives below a pane's process. */
module ProcessSearch {

  type Pid = nat

  /** A process's parent, and whether it is an agent. */
  datatype Process = Process(parent: Pid, agent: bool)

  type ProcessTable = map<Pid, Process>

  const BOUND := 4096

  predicate IsAgent(pid: Pid, procs: ProcessTable) { pid in procs && procs[pid].agent }

  /** `path` leads from `root` down to its last process, each one the parent of the next. */
  ghost predicate IsPath(path: seq<Pid>, root: Pid, procs: ProcessTable)
  {
    && path != [] && path[0] == root
    && forall i :: 0 < i < |path| ==> path[i] in procs && procs[path[i]].parent == path[i - 1]
  }

  /** `pid` is `root` or one of its descendants. */
  ghost predicate Below(pid: Pid, root: Pid, procs: ProcessTable)
  {
    exists path :: IsPath(path, root, procs) && path[|path| - 1] == pid
  }

  ghost function Descendants(root: Pid, procs: ProcessTable): set<Pid>
  {
    set pid | pid in procs.Keys + {root} && Below(pid, root, procs)
  }

  lemma BelowInTable(pid: Pid, root: Pid, procs: ProcessTable)
    requires Below(pid, root, procs)
    ensures pid in procs.Keys + {root}
  {}

  lemma RootBelow(root: Pid, procs: ProcessTable)
    ensures Below(root, root, procs)
  {
    assert IsPath([root], root, procs);
  }

  lemma ChildBelow(parent: Pid, child: Pid, root: Pid, procs: ProcessTable)
    requires Below(parent, root, procs) && child in procs && procs[child].parent == parent
    ensures Below(child, root, procs)
  {
    var path :| IsPath(path, root, procs) && path[|path| - 1] == parent;
    assert IsPath(path + [child], root, procs);
    assert (path + [child])[|path + [child]| - 1] == child;
  }

  /** A set that holds the root and every child of its members holds every descendant. */
  lemma {:induction false} ClosedHoldsPath(path: seq<Pid>, root: Pid, procs: ProcessTable, closed: set<Pid>)
    requires IsPath(path, root, procs) && root in closed
    requires forall pid :: pid in procs && procs[pid].parent in closed ==> pid in closed
    ensures path[|path| - 1] in closed
  {
    if |path| > 1 {
      var up := path[..|path| - 1];
      assert IsPath(up, root, procs);
      ClosedHoldsPath(up, root, procs, closed);
      assert procs[path[|path| - 1]].parent == up[|up| - 1];
    }
  }

  lemma NoAgentBelow(root: Pid, procs: ProcessTable, closed: set<Pid>)
    requires root in closed
    requires forall pid :: pid in procs && procs[pid].parent in closed ==> pid in closed
    requires forall pid :: pid in closed ==> !IsAgent(pid, procs)
    ensures !exists pid :: Below(pid, root, procs) && IsAgent(pid, procs)
  {
    forall pid | Below(pid, root, procs) ensures !IsAgent(pid, procs) {
      var path :| IsPath(path, root, procs) && path[|path| - 1] == pid;
      ClosedHoldsPath(path, root, procs, closed);
    }
  }

  ghost function Elements(s: seq<Pid>): set<Pid> { set i | 0 <= i < |s| :: s[i] }

  ghost predicate Distinct(s: seq<Pid>) { forall i, j :: 0 <= i < j < |s| ==> s[i] != s[j] }

  lemma {:induction false} DistinctSize(s: seq<Pid>)
    requires Distinct(s)
    ensures |Elements(s)| == |s|
  {
    if s != [] {
      var init := s[..|s| - 1];
      DistinctSize(init);
      assert Elements(s) == Elements(init) + {s[|s| - 1]};
      assert s[|s| - 1] !in Elements(init);
    }
  }

  lemma SizeMonotone(a: set<Pid>, b: set<Pid>)
    requires a <= b
    ensures |a| <= |b|
  {
    assert b == a + (b - a);
  }

  /** Append the children of `current` that have not been seen, in any order of the table. */
  method AddChildren(current: Pid, procs: ProcessTable, known: seq<Pid>, ghost root: Pid) returns (all: seq<Pid>)
    requires Distinct(known) && current in known
    requires forall i :: 0 <= i < |known| ==> Below(known[i], root, procs)
    ensures known <= all && Distinct(all)
    ensures forall i :: 0 <= i < |all| ==> Below(all[i], root, procs)
    ensures forall pid :: pid in procs && procs[pid].parent == current ==> pid in all
    ensures forall i :: |known| <= i < |all| ==> all[i] in procs && procs[all[i]].parent == current
  {
    all := known;
    var todo := procs.Keys;
    while todo != {}
      invariant todo <= procs.Keys && known <= all && Distinct(all)
      invariant forall i :: 0 <= i < |all| ==> Below(all[i], root, procs)
      invariant forall pid :: pid in procs.Keys - todo && procs[pid].parent == current ==> pid in all
      invariant forall i :: |known| <= i < |all| ==> all[i] in procs && procs[all[i]].parent == current
      decreases |todo|
    {
      hide Below;
      var pid :| pid in todo;
      if procs[pid].parent == current && pid !in all {
        ChildBelow(current, pid, root, procs);
        all := all + [pid];
      }
      todo := todo - {pid};
    }
  }

  /** The state of the walk: everything listed is below the root, the first `cursor` processes are
      not agents, and their children are all listed. */
  ghost predicate Walk(listed: seq<Pid>, cursor: nat, root: Pid, procs: ProcessTable)
  {
    && cursor <= |listed| && listed != [] && listed[0] == root && Distinct(listed)
    && (forall i :: 0 <= i < |listed| ==> Below(listed[i], root, procs))
    && (forall i :: 0 <= i < cursor ==> !IsAgent(listed[i], procs))
    && (forall i :: 0 <= i < cursor ==> ChildrenListed(listed[i], listed, procs))
  }

  ghost predicate ChildrenListed(parent: Pid, listed: seq<Pid>, procs: ProcessTable)
  {
    forall pid :: pid in procs && procs[pid].parent == parent ==> pid in listed
  }

  lemma StillListed(parent: Pid, listed: seq<Pid>, all: seq<Pid>, procs: ProcessTable)
    requires ChildrenListed(parent, listed, procs) && listed <= all
    ensures ChildrenListed(parent, all, procs)
  {
    forall pid | pid in procs && procs[pid].parent == parent ensures pid in all { InPrefix(listed, all, pid); }
  }

  /** `pid` is at most `depth` steps below the root. */
  ghost predicate Within(pid: Pid, depth: nat, root: Pid, procs: ProcessTable)
  {
    exists path :: IsPath(path, root, procs) && |path| <= depth + 1 && path[|path| - 1] == pid
  }

  ghost function WithinSet(depth: nat, root: Pid, procs: ProcessTable): set<Pid>
  {
    set pid | pid in procs.Keys + {root} && Within(pid, depth, root, procs)
  }

  lemma ChildWithin(parent: Pid, child: Pid, depth: nat, root: Pid, procs: ProcessTable)
    requires Within(parent, depth, root, procs) && child in procs && procs[child].parent == parent
    ensures Within(child, depth + 1, root, procs)
  {
    var path :| IsPath(path, root, procs) && |path| <= depth + 1 && path[|path| - 1] == parent;
    assert IsPath(path + [child], root, procs);
    assert (path + [child])[|path + [child]| - 1] == child;
  }

  lemma WithinMore(pid: Pid, depth: nat, more: nat, root: Pid, procs: ProcessTable)
    requires Within(pid, depth, root, procs) && depth <= more
    ensures Within(pid, more, root, procs)
  {}

  /** The list is in order of depth, at most one level beyond the last process visited, and a child
      of a visited process is at most one level below it. */
  ghost predicate Leveled(listed: seq<Pid>, levels: seq<nat>, cursor: nat, root: Pid, procs: ProcessTable)
  {
    && |levels| == |listed| && 0 < |listed| && cursor <= |listed| && listed[0] == root && levels[0] == 0
    && (forall i, j :: 0 <= i <= j < |levels| ==> levels[i] <= levels[j])
    && (cursor == 0 ==> |listed| == 1)
    && (cursor > 0 ==> forall i :: 0 <= i < |levels| ==> levels[i] <= levels[cursor - 1] + 1)
    && (forall i :: 0 <= i < |listed| ==> Within(listed[i], levels[i], root, procs))
    && (forall i, m :: 0 <= i < cursor && 0 <= m < |listed| && listed[m] in procs ==>
          procs[listed[m]].parent == listed[i] ==> levels[m] <= levels[i] + 1)
  }

  ghost function NextLevels(levels: seq<nat>, cursor: nat, n: nat): seq<nat>
    requires cursor < |levels| <= n
  {
    levels + seq(n - |levels|, _ => levels[cursor] + 1)
  }

  lemma LevelStep(listed: seq<Pid>, levels: seq<nat>, cursor: nat, all: seq<Pid>, root: Pid, procs: ProcessTable)
    requires Leveled(listed, levels, cursor, root, procs) && cursor < |listed|
    requires listed <= all && Distinct(all)
    requires forall i :: |listed| <= i < |all| ==> all[i] in procs && procs[all[i]].parent == listed[cursor]
    ensures Leveled(all, NextLevels(levels, cursor, |all|), cursor + 1, root, procs)
  {
    var next := NextLevels(levels, cursor, |all|);
    assert forall i :: 0 <= i < |listed| ==> all[i] == listed[i] && next[i] == levels[i];
    assert forall i :: |listed| <= i < |all| ==> next[i] == levels[cursor] + 1;
    forall i | |listed| <= i < |all| ensures Within(all[i], next[i], root, procs) {
      ChildWithin(listed[cursor], all[i], levels[cursor], root, procs);
    }
    hide Within;
    forall i, m | 0 <= i < cursor + 1 && 0 <= m < |all| && all[m] in procs && procs[all[m]].parent == all[i]
      ensures next[m] <= next[i] + 1
    {
      if m >= |listed| { assert all[i] == all[cursor]; }
    }
  }

  /** A process on a path to one not visited yet is not listed deeper than its place on the path, so
      nothing listed is more than one level below the end of the path. */
  lemma {:induction false} NextIsShallow(listed: seq<Pid>, levels: seq<nat>, cursor: nat, root: Pid,
                                         procs: ProcessTable, path: seq<Pid>)
    requires Walk(listed, cursor, root, procs) && Leveled(listed, levels, cursor, root, procs) && cursor < |listed|
    requires IsPath(path, root, procs)
    ensures || (exists i :: 0 <= i < cursor && listed[i] == path[|path| - 1] && levels[i] < |path|)
            || levels[cursor] < |path|
  {
    hide Below, Distinct, Within;
    if |path| > 1 {
      var up := path[..|path| - 1];
      assert IsPath(up, root, procs);
      NextIsShallow(listed, levels, cursor, root, procs, up);
      if levels[cursor] >= |path| {
        var i :| 0 <= i < cursor && listed[i] == up[|up| - 1] && levels[i] < |up|;
        var last := path[|path| - 1];
        assert procs[last].parent == listed[i];
        assert last in listed;
        var m :| 0 <= m < |listed| && listed[m] == last;
        assert levels[m] <= levels[i] + 1;
        assert m < cursor;
      }
    }
  }

  /** Everything listed lies at most one level below any agent the walk has not met. */
  lemma StoppedAbove(listed: seq<Pid>, levels: seq<nat>, cursor: nat, root: Pid, procs: ProcessTable, path: seq<Pid>)
    requires Walk(listed, cursor, root, procs) && Leveled(listed, levels, cursor, root, procs) && cursor < |listed|
    requires IsPath(path, root, procs) && IsAgent(path[|path| - 1], procs)
    ensures |listed| <= |WithinSet(|path|, root, procs)|
  {
    NextIsShallow(listed, levels, cursor, root, procs, path);
    hide Below, Within, IsPath;
    assert levels[cursor] < |path|;
    forall i | 0 <= i < |listed| ensures Within(listed[i], |path|, root, procs) {
      assert levels[i] <= levels[cursor] + 1;
      WithinMore(listed[i], levels[i], |path|, root, procs);
    }
    DistinctSize(listed);
    SizeMonotone(Elements(listed), WithinSet(|path|, root, procs));
  }

  /** Everything no deeper than the process about to be visited is listed already. */
  lemma ShallowIsListed(listed: seq<Pid>, levels: seq<nat>, cursor: nat, root: Pid, procs: ProcessTable, path: seq<Pid>)
    requires Walk(listed, cursor, root, procs) && Leveled(listed, levels, cursor, root, procs) && cursor < |listed|
    requires IsPath(path, root, procs) && |path| <= levels[cursor] + 1
    ensures path[|path| - 1] in listed
  {
    if |path| > 1 {
      var up := path[..|path| - 1];
      assert IsPath(up, root, procs);
      NextIsShallow(listed, levels, cursor, root, procs, up);
      var i :| 0 <= i < cursor && listed[i] == up[|up| - 1] && levels[i] < |up|;
      assert ChildrenListed(listed[i], listed, procs);
      assert procs[path[|path| - 1]].parent == listed[i];
    }
  }

  lemma LevelsAboveListed(listed: seq<Pid>, levels: seq<nat>, cursor: nat, root: Pid, procs: ProcessTable)
    requires Walk(listed, cursor, root, procs) && Leveled(listed, levels, cursor, root, procs) && cursor < |listed|
    ensures |WithinSet(levels[cursor], root, procs)| <= |listed|
    ensures Within(listed[cursor], levels[cursor], root, procs)
  {
    var above := WithinSet(levels[cursor], root, procs);
    forall pid | pid in above ensures pid in Elements(listed) {
      var path :| IsPath(path, root, procs) && |path| <= levels[cursor] + 1 && path[|path| - 1] == pid;
      ShallowIsListed(listed, levels, cursor, root, procs, path);
    }
    hide Walk, Within, WithinSet;
    SizeMonotone(above, Elements(listed));
    ListSize(listed);
  }

  lemma {:induction false} ListSize(s: seq<Pid>)
    ensures |Elements(s)| <= |s|
  {
    if s != [] {
      var init := s[..|s| - 1];
      ListSize(init);
      assert Elements(s) == Elements(init) + {s[|s| - 1]};
    }
  }

  lemma WalkStep(listed: seq<Pid>, cursor: nat, all: seq<Pid>, root: Pid, procs: ProcessTable)
    requires Walk(listed, cursor, root, procs) && cursor < |listed| && !IsAgent(listed[cursor], procs)
    requires listed <= all && Distinct(all)
    requires forall i :: 0 <= i < |all| ==> Below(all[i], root, procs)
    requires ChildrenListed(listed[cursor], all, procs)
    ensures Walk(all, cursor + 1, root, procs)
    ensures |all| <= |procs.Keys + {root}|
  {
    hide Below, IsAgent, Distinct, ChildrenListed;
    BoundedByTable(all, root, procs);
    PrefixAt(listed, all, 0);
    forall i | 0 <= i < cursor + 1 ensures !IsAgent(all[i], procs) { PrefixAt(listed, all, i); }
    forall i | 0 <= i < cursor + 1 ensures ChildrenListed(all[i], all, procs) {
      PrefixAt(listed, all, i);
      if i < cursor { StillListed(listed[i], listed, all, procs); }
    }
  }

  lemma PrefixAt(p: seq<Pid>, s: seq<Pid>, i: nat)
    requires p <= s && i < |p|
    ensures s[i] == p[i]
  {}

  lemma InPrefix(p: seq<Pid>, s: seq<Pid>, x: Pid)
    requires p <= s && x in p
    ensures x in s
  {
    var i :| 0 <= i < |p| && p[i] == x;
    PrefixAt(p, s, i);
  }

  /** An agent that a bounded walk may find: fewer processes than the bound lie no deeper than it. */
  ghost predicate InReach(pid: Pid, depth: nat, root: Pid, procs: ProcessTable)
  {
    Within(pid, depth, root, procs) && IsAgent(pid, procs) && |WithinSet(depth, root, procs)| < 4096
  }

  /** A true answer names a real descendant agent in reach, and below the bound the answer is exact: an
      agent is found in every order if fewer processes than the bound lie down to the level below it,
      and in none if that many lie down to its own level. */
  method SubtreeHasAgent(root: Pid, procs: ProcessTable) returns (found: bool)
    ensures found ==> exists pid :: Below(pid, root, procs) && IsAgent(pid, procs)
    ensures found ==> exists pid, depth: nat :: InReach(pid, depth, root, procs)
    ensures |Descendants(root, procs)| < 4096 ==>
              (found <==> exists pid :: Below(pid, root, procs) && IsAgent(pid, procs))
    ensures forall pid, depth: nat ::
              Within(pid, depth, root, procs) && IsAgent(pid, procs) ==>
                |WithinSet(depth + 1, root, procs)| < 4096 ==> found
    ensures !IsAgent(root, procs) && |Children(root, procs) - {root}| >= 4095 ==> !found
  {
    hide Below, Within, WithinSet, InReach, Distinct, Descendants, Children;
    RootBelow(root, procs);
    var descendants := [root];
    ghost var levels := [0];
    var cursor := 0;
    StartWalk(root, procs);
    while cursor < |descendants| && |descendants| < BOUND
      invariant Walk(descendants, cursor, root, procs) && Leveled(descendants, levels, cursor, root, procs)
      decreases |procs.Keys + {root}| + 1 - |descendants|, |descendants| - cursor
    {
      var current := descendants[cursor];
      if current in procs && procs[current].agent {
        assert Below(current, root, procs) && IsAgent(current, procs);
        FoundInReach(descendants, levels, cursor, root, procs);
        RootNotWide(current, levels[cursor], root, procs);
        return true;
      }
      var all := AddChildren(current, procs, descendants, root);
      WalkStep(descendants, cursor, all, root, procs);
      LevelStep(descendants, levels, cursor, all, root, procs);
      levels := NextLevels(levels, cursor, |all|);
      cursor := cursor + 1;
      descendants := all;
    }
    if cursor == |descendants| {
      ClosedListIsExact(descendants, root, procs);
      NoneWithin(root, procs);
    } else {
      TooMany(descendants, root, procs);
      DeepOrNone(descendants, levels, cursor, root, procs);
    }
    return false;
  }

  lemma NoneWithin(root: Pid, procs: ProcessTable)
    requires !exists pid :: Below(pid, root, procs) && IsAgent(pid, procs)
    ensures forall pid, depth: nat :: Within(pid, depth, root, procs) ==> !IsAgent(pid, procs)
  {
    forall pid, depth: nat | Within(pid, depth, root, procs) ensures !IsAgent(pid, procs) {
      assert Below(pid, root, procs);
    }
  }

  lemma DeepOrNone(listed: seq<Pid>, levels: seq<nat>, cursor: nat, root: Pid, procs: ProcessTable)
    requires Walk(listed, cursor, root, procs) && Leveled(listed, levels, cursor, root, procs) && cursor < |listed|
    ensures forall pid, depth: nat :: Within(pid, depth, root, procs) && IsAgent(pid, procs) ==>
                                 |listed| <= |WithinSet(depth + 1, root, procs)|
  {
    hide Walk, Leveled, Distinct, Below;
    forall pid, depth: nat | Within(pid, depth, root, procs) && IsAgent(pid, procs)
      ensures |listed| <= |WithinSet(depth + 1, root, procs)|
    {
      var path :| IsPath(path, root, procs) && |path| <= depth + 1 && path[|path| - 1] == pid;
      StoppedAbove(listed, levels, cursor, root, procs, path);
      forall p | p in WithinSet(|path|, root, procs) ensures p in WithinSet(depth + 1, root, procs) {
        WithinMore(p, |path|, depth + 1, root, procs);
      }
      SizeMonotone(WithinSet(|path|, root, procs), WithinSet(depth + 1, root, procs));
    }
  }

  lemma StartWalk(root: Pid, procs: ProcessTable)
    ensures Walk([root], 0, root, procs) && Leveled([root], [0], 0, root, procs)
  {
    assert IsPath([root], root, procs);
    assert Within(root, 0, root, procs);
    RootBelow(root, procs);
    hide Below, Within;
  }

  lemma FoundInReach(listed: seq<Pid>, levels: seq<nat>, cursor: nat, root: Pid, procs: ProcessTable)
    requires Walk(listed, cursor, root, procs) && Leveled(listed, levels, cursor, root, procs)
    requires cursor < |listed| < BOUND && IsAgent(listed[cursor], procs)
    ensures InReach(listed[cursor], levels[cursor], root, procs)
  {
    hide Walk, Leveled, Within, WithinSet;
    LevelsAboveListed(listed, levels, cursor, root, procs);
  }

  /** A plain root with a bound of children leaves no agent in reach. */
  lemma RootNotWide(pid: Pid, depth: nat, root: Pid, procs: ProcessTable)
    requires InReach(pid, depth, root, procs)
    ensures IsAgent(root, procs) || |Children(root, procs) - {root}| < BOUND - 1
  {
    if depth == 0 {
      var path :| IsPath(path, root, procs) && |path| <= depth + 1 && path[|path| - 1] == pid;
      assert pid == root;
    } else {
      hide WithinSet, Children, IsAgent;
      ChildrenAbove(depth, root, procs);
    }
  }

  lemma ChildrenAbove(depth: nat, root: Pid, procs: ProcessTable)
    requires depth > 0
    ensures |WithinSet(depth, root, procs)| >= |Children(root, procs) - {root}| + 1
  {
    var children := Children(root, procs) - {root};
    forall pid | pid in children + {root} ensures pid in WithinSet(depth, root, procs) {
      RootOrChildWithin(pid, depth, root, procs);
    }
    hide WithinSet, Children;
    SizeMonotone(children + {root}, WithinSet(depth, root, procs));
  }

  lemma RootOrChildWithin(pid: Pid, depth: nat, root: Pid, procs: ProcessTable)
    requires depth > 0 && (pid == root || (pid in procs && procs[pid].parent == root))
    ensures Within(pid, depth, root, procs)
  {
    assert IsPath([root], root, procs);
    assert Within(root, 0, root, procs);
    hide IsPath, Within;
    if pid != root { ChildWithin(root, pid, 0, root, procs); }
    WithinMore(pid, if pid == root then 0 else 1, depth, root, procs);
  }

  ghost function Children(root: Pid, procs: ProcessTable): set<Pid>
  {
    set pid | pid in procs && procs[pid].parent == root
  }

  lemma BoundedByTable(all: seq<Pid>, root: Pid, procs: ProcessTable)
    requires Distinct(all) && forall i :: 0 <= i < |all| ==> Below(all[i], root, procs)
    ensures |all| <= |procs.Keys + {root}|
  {
    DistinctSize(all);
    forall i | 0 <= i < |all| ensures all[i] in procs.Keys + {root} { BelowInTable(all[i], root, procs); }
    hide Below;
    SizeMonotone(Elements(all), procs.Keys + {root});
  }

  lemma ClosedListIsExact(all: seq<Pid>, root: Pid, procs: ProcessTable)
    requires Walk(all, |all|, root, procs)
    ensures !exists pid :: Below(pid, root, procs) && IsAgent(pid, procs)
  {
    hide Below;
    var closed := Elements(all);
    assert root == all[0] && root in closed;
    NoAgentBelow(root, procs, closed);
  }

  lemma TooMany(all: seq<Pid>, root: Pid, procs: ProcessTable)
    requires Distinct(all) && |all| >= BOUND
    requires forall i :: 0 <= i < |all| ==> Below(all[i], root, procs)
    ensures |Descendants(root, procs)| >= BOUND
  {
    hide Below;
    DistinctSize(all);
    forall i | 0 <= i < |all| ensures all[i] in Descendants(root, procs) { BelowInTable(all[i], root, procs); }
    SizeMonotone(Elements(all), Descendants(root, procs));
  }

  /** A root 0 with children 1 to n, of which `agent` is the agent. */
  function Fan(n: nat, agent: Pid): ProcessTable
  {
    if n == 0 then map[] else Fan(n - 1, agent)[n := Process(0, n == agent)]
  }

  lemma {:induction false} FanEntry(n: nat, agent: Pid, pid: Pid)
    ensures pid in Fan(n, agent) <==> 0 < pid <= n
    ensures pid in Fan(n, agent) ==> Fan(n, agent)[pid] == Process(0, pid == agent)
  {
    if n > 0 { FanEntry(n - 1, agent, pid); }
  }

  lemma {:induction false} FanSize(n: nat, agent: Pid)
    ensures |Fan(n, agent)| == n
  {
    if n > 0 {
      FanSize(n - 1, agent);
      FanEntry(n - 1, agent, n);
    }
  }

  /** A table on which the walk must miss an agent: 4096 children of a plain root, one an agent. */
  lemma WideTableHidesAgent()
    ensures Below(1, 0, Fan(BOUND, 1)) && IsAgent(1, Fan(BOUND, 1))
    ensures forall pid, depth: nat :: !InReach(pid, depth, 0, Fan(BOUND, 1))
  {
    hide Fan;
    FanSize(BOUND, 1);
    forall pid: Pid { FanEntry(BOUND, 1, pid); }
    assert Children(0, Fan(BOUND, 1)) - {0} == Fan(BOUND, 1).Keys;
    RootBelow(0, Fan(BOUND, 1));
    ChildBelow(0, 1, 0, Fan(BOUND, 1));
    hide Children, InReach, Below;
    forall pid, depth: nat | InReach(pid, depth, 0, Fan(BOUND, 1)) ensures false {
      RootNotWide(pid, depth, 0, Fan(BOUND, 1));
    }
  }
}
