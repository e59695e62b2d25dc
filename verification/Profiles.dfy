/** Executor profiles: user overrides as a diff against the built-in profiles, and variant keys
    brought to canonical form in place. */
module Profiles {
  import opened Text

  type Executor = nat

  /** A coding agent's settings; profiles only compare them. */
  type Config = string

  datatype RecentModels = RecentModels(models: seq<string>, reasoning: map<string, string>)

  const NO_MODELS := RecentModels([], map[])

  datatype Profile = Profile(recent: Option<RecentModels>, configs: map<string, Config>)

  type Profiles = map<Executor, Profile>

  datatype ProfileError =
    | CannotDeleteExecutor(executor: Executor)
    | CannotDeleteBuiltInConfig(executor: Executor, variant: string)

  datatype Result<T> = Ok(value: T) | Err(error: ProfileError)

  // ---------- Merging ----------

  function MergeProfile(d: Profile, o: Profile): Profile
  {
    Profile(if o.recent.Some? then o.recent else d.recent, d.configs + o.configs)
  }

  function Merge(d: Profiles, o: Profiles): Profiles
  {
    map e | e in d.Keys + o.Keys ::
      if e !in o then d[e] else if e !in d then o[e] else MergeProfile(d[e], o[e])
  }

  /** The merge once the overrides of all executors but those in `todo` are applied. */
  ghost predicate MergedBut(d: Profiles, o: Profiles, todo: set<Executor>, r: Profiles)
  {
    && todo <= o.Keys && r.Keys == d.Keys + (o.Keys - todo)
    && forall e :: e in r ==> r[e] == if e in todo then d[e] else Merge(d, o)[e]
  }

  lemma MergeStep(d: Profiles, o: Profiles, todo: set<Executor>, r: Profiles, e: Executor)
    requires MergedBut(d, o, todo, r) && e in todo
    ensures e in r ==> r[e] == d[e]
    ensures MergedBut(d, o, todo - {e}, r[e := if e in r then MergeProfile(r[e], o[e]) else o[e]])
  {
    hide MergeProfile;
  }

  lemma MergeEnds(d: Profiles, o: Profiles, r: Profiles)
    requires MergedBut(d, o, {}, r)
    ensures r == Merge(d, o)
  {
    hide MergeProfile;
  }

  method MergeWithDefaults(defaults: Profiles, overrides: Profiles) returns (r: Profiles)
    ensures r == Merge(defaults, overrides)
  {
    r := defaults;
    var todo := overrides.Keys;
    assert MergedBut(defaults, overrides, todo, r);
    hide MergedBut, Merge, MergeProfile;
    while todo != {}
      invariant todo <= overrides.Keys && MergedBut(defaults, overrides, todo, r)
      decreases |todo|
    {
      var e :| e in todo;
      MergeStep(defaults, overrides, todo, r, e);
      if e in r {
        var merged := InsertAll(r[e], overrides[e]);
        r := r[e := merged];
      } else {
        r := r[e := overrides[e]];
      }
      todo := todo - {e};
    }
    MergeEnds(defaults, overrides, r);
  }

  method InsertAll(d: Profile, o: Profile) returns (p: Profile)
    ensures p == MergeProfile(d, o)
  {
    var configs := d.configs;
    var todo := o.configs.Keys;
    while todo != {}
      invariant todo <= o.configs.Keys && configs.Keys == d.configs.Keys + (o.configs.Keys - todo)
      invariant forall n :: n in configs ==>
                  configs[n] == if n in o.configs && n !in todo then o.configs[n] else d.configs[n]
      decreases |todo|
    {
      var n :| n in todo;
      configs := configs[n := o.configs[n]];
      todo := todo - {n};
    }
    assert configs == d.configs + o.configs;
    p := Profile(if o.recent.Some? then o.recent else d.recent, configs);
  }

  // ---------- Computing overrides ----------

  /** Nothing built in is missing. */
  ghost predicate Covers(d: Profiles, c: Profiles)
  {
    forall e :: e in d ==> e in c && d[e].configs.Keys <= c[e].configs.Keys
  }

  predicate Differs(d: Profile, c: Profile, n: string)
    requires n in c.configs
  {
    n !in d.configs || c.configs[n] != d.configs[n]
  }

  function DiffProfile(d: Profile, c: Profile): Profile
  {
    Profile(
      if c.recent == d.recent then None else if c.recent.Some? then c.recent else Some(NO_MODELS),
      map n | n in c.configs && Differs(d, c, n) :: c.configs[n])
  }

  predicate IsEmpty(p: Profile) { p.recent.None? && p.configs == map[] }

  predicate Overridden(d: Profiles, c: Profiles, e: Executor)
  {
    e in c && (e in d ==> !IsEmpty(DiffProfile(d[e], c[e])))
  }

  function Overrides(d: Profiles, c: Profiles): Profiles
  {
    map e | e in c && Overridden(d, c, e) :: if e in d then DiffProfile(d[e], c[e]) else c[e]
  }

  ghost predicate Refuses(d: Profiles, c: Profiles, error: ProfileError)
  {
    match error
    case CannotDeleteExecutor(e) => e in d && e !in c
    case CannotDeleteBuiltInConfig(e, n) => e in d && e in c && n in d[e].configs && n !in c[e].configs
  }

  /** The scan for deletions, in any order of the tables. */
  method FindDeletion(d: Profiles, c: Profiles) returns (r: Option<ProfileError>)
    ensures r.None? <==> Covers(d, c)
    ensures r.Some? ==> Refuses(d, c, r.value)
  {
    var todo := d.Keys;
    while todo != {}
      invariant todo <= d.Keys
      invariant forall e :: e in d.Keys - todo ==> e in c && d[e].configs.Keys <= c[e].configs.Keys
      decreases |todo|
    {
      var e :| e in todo;
      if e !in c { return Some(CannotDeleteExecutor(e)); }
      var names := d[e].configs.Keys;
      while names != {}
        invariant names <= d[e].configs.Keys && d[e].configs.Keys - names <= c[e].configs.Keys
        decreases |names|
      {
        var n :| n in names;
        if n !in c[e].configs { return Some(CannotDeleteBuiltInConfig(e, n)); }
        names := names - {n};
      }
      todo := todo - {e};
    }
    return None;
  }

  method Diff(d: Profile, c: Profile) returns (p: Profile)
    ensures p == DiffProfile(d, c)
  {
    var configs: map<string, Config> := map[];
    var todo := c.configs.Keys;
    while todo != {}
      invariant todo <= c.configs.Keys
      invariant configs == map n | n in c.configs && n !in todo && Differs(d, c, n) :: c.configs[n]
      decreases |todo|
    {
      var n :| n in todo;
      if n in d.configs {
        if c.configs[n] != d.configs[n] { configs := configs[n := c.configs[n]]; }
      } else {
        configs := configs[n := c.configs[n]];
      }
      todo := todo - {n};
    }
    var recent: Option<RecentModels> := None;
    if c.recent != d.recent {
      recent := if c.recent.Some? then c.recent else Some(NO_MODELS);
    }
    p := Profile(recent, configs);
  }

  method ComputeOverrides(d: Profiles, c: Profiles) returns (r: Result<Profiles>)
    ensures r.Ok? <==> Covers(d, c)
    ensures r.Ok? ==> r.value == Overrides(d, c)
    ensures r.Err? ==> Refuses(d, c, r.error)
  {
    hide DiffProfile, Covers, Refuses;
    var deletion := FindDeletion(d, c);
    if deletion.Some? { return Err(deletion.value); }
    var overrides: Profiles := map[];
    var todo := c.Keys;
    while todo != {}
      invariant todo <= c.Keys
      invariant overrides.Keys == set e | e in c && e !in todo && Overridden(d, c, e)
      invariant forall e :: e in overrides ==> overrides[e] == if e in d then DiffProfile(d[e], c[e]) else c[e]
      decreases |todo|
    {
      var e :| e in todo;
      if e in d {
        var p := Diff(d[e], c[e]);
        if p.configs != map[] || p.recent.Some? { overrides := overrides[e := p]; }
      } else {
        overrides := overrides[e := c[e]];
      }
      todo := todo - {e};
    }
    assert overrides == Overrides(d, c);
    return Ok(overrides);
  }

  // ---------- Round trip ----------

  predicate LosesRecent(d: Profiles, c: Profiles, e: Executor)
    requires e in c
  {
    e in d && d[e].recent.Some? && c[e].recent.None?
  }

  /** The current profiles, except that dropped recent models come back as an empty record. */
  function Restored(d: Profiles, c: Profiles): Profiles
  {
    map e | e in c :: if LosesRecent(d, c, e) then c[e].(recent := Some(NO_MODELS)) else c[e]
  }

  lemma DiffRestores(d: Profile, c: Profile)
    requires d.configs.Keys <= c.configs.Keys
    ensures MergeProfile(d, DiffProfile(d, c)).configs == c.configs
    ensures MergeProfile(d, DiffProfile(d, c)).recent ==
            if d.recent.Some? && c.recent.None? then Some(NO_MODELS) else c.recent
    ensures IsEmpty(DiffProfile(d, c)) ==> d == c
  {
    var m := MergeProfile(d, DiffProfile(d, c)).configs;
    assert m.Keys == c.configs.Keys;
    if IsEmpty(DiffProfile(d, c)) {
      forall n | n in c.configs ensures n in d.configs && d.configs[n] == c.configs[n] {
        assert n !in DiffProfile(d, c).configs;
      }
      assert d.configs == c.configs;
    }
  }

  /** Applying the computed overrides to the defaults gives the current profiles back. */
  lemma OverridesRestore(d: Profiles, c: Profiles)
    requires Covers(d, c)
    ensures Merge(d, Overrides(d, c)) == Restored(d, c)
  {
    var m := Merge(d, Overrides(d, c));
    assert m.Keys == c.Keys;
    forall e | e in c ensures m[e] == Restored(d, c)[e] {
      if e in d { DiffRestores(d[e], c[e]); }
    }
  }

  /** They give back exactly the current profiles if and only if no executor dropped the recent
      models its default has. */
  lemma OverridesRestoreIff(d: Profiles, c: Profiles)
    requires Covers(d, c)
    ensures Merge(d, Overrides(d, c)) == c <==> forall e :: e in c ==> !LosesRecent(d, c, e)
  {
    OverridesRestore(d, c);
    if e :| e in c && LosesRecent(d, c, e) {
      assert Restored(d, c)[e] != c[e];
    } else {
      assert Restored(d, c) == c;
    }
  }

  /** Recent models the defaults have cannot be dropped: saving that keeps an empty record. */
  lemma DroppedModelsComeBackEmpty()
    ensures var d := map[0 := Profile(Some(RecentModels(["m"], map[])), map[])];
      var c := map[0 := Profile(None, map[])];
      Covers(d, c) && Merge(d, Overrides(d, c))[0].recent == Some(NO_MODELS) && Merge(d, Overrides(d, c)) != c
  {
    var d := map[0 := Profile(Some(RecentModels(["m"], map[])), map[])];
    var c := map[0 := Profile(None, map[])];
    OverridesRestore(d, c);
    assert LosesRecent(d, c, 0);
    assert 0 in Restored(d, c);
  }

  /** `o` is part of `o'`, entry by entry. */
  ghost predicate Contained(o: Profiles, o': Profiles)
  {
    forall e :: e in o ==>
      && e in o'
      && (forall n :: n in o[e].configs ==> n in o'[e].configs && o'[e].configs[n] == o[e].configs[n])
      && (o[e].recent.Some? ==> o'[e].recent == o[e].recent)
  }

  /** An empty recent-models record that replaces an equal default and so changes nothing. */
  predicate Redundant(d: Profiles, c: Profiles, e: Executor)
    requires e in c
  {
    e in d && d[e].recent == Some(NO_MODELS) && c[e].recent.None?
  }

  lemma ContainedIn(d: Profiles, c: Profiles, other: Profiles)
    requires Covers(d, c) && forall e :: e in c ==> !Redundant(d, c, e)
    requires Merge(d, other) == Merge(d, Overrides(d, c))
    ensures Contained(Overrides(d, c), other)
  {
    var o := Overrides(d, c);
    OverridesRestore(d, c);
    forall e | e in o
      ensures e in other
      ensures forall n :: n in o[e].configs ==> n in other[e].configs && other[e].configs[n] == o[e].configs[n]
      ensures o[e].recent.Some? ==> other[e].recent == o[e].recent
    {
      assert e in Merge(d, o).Keys && Merge(d, other)[e] == Merge(d, o)[e];
      assert e in Merge(d, other).Keys && Overridden(d, c, e);
      if e in d {
        DiffNeeded(d[e], c[e]);
      }
    }
  }

  lemma DiffNeeded(d: Profile, c: Profile)
    requires d.configs.Keys <= c.configs.Keys
    requires !(d.recent == Some(NO_MODELS) && c.recent.None?)
    ensures var o := DiffProfile(d, c); var m := MergeProfile(d, o);
      && (!IsEmpty(o) ==> m != d)
      && (o.recent.Some? ==> m.recent == o.recent && d.recent != o.recent)
      && forall n :: n in o.configs ==>
        n in m.configs && m.configs[n] == o.configs[n] && (n in d.configs ==> d.configs[n] != o.configs[n])
  {
    var o := DiffProfile(d, c);
    if o.configs != map[] {
      var n :| n in o.configs;
      assert Differs(d, c, n);
    }
  }

  /** The computed overrides are the least that have their effect, unless an executor's default is
      the empty record and it was dropped: exactly then an entry is redundant. */
  lemma OverridesMinimalIff(d: Profiles, c: Profiles)
    requires Covers(d, c)
    ensures (forall other :: Merge(d, other) == Merge(d, Overrides(d, c)) ==> Contained(Overrides(d, c), other)) <==>
            forall e :: e in c ==> !Redundant(d, c, e)
  {
    hide Merge, Overrides, Contained, Redundant;
    if forall e :: e in c ==> !Redundant(d, c, e) {
      forall other | Merge(d, other) == Merge(d, Overrides(d, c)) ensures Contained(Overrides(d, c), other) {
        ContainedIn(d, c, other);
      }
    } else {
      var e :| e in c && Redundant(d, c, e);
      var other := RedundantEntry(d, c, e);
    }
  }

  /** With an empty record as the default, dropping it stores an entry that does nothing. */
  lemma EmptyRecordStoredForNothing()
    ensures var d := map[0 := Profile(Some(NO_MODELS), map[])];
      var c := map[0 := Profile(None, map[])];
      && Covers(d, c) && Merge(d, map[]) == Merge(d, Overrides(d, c))
      && Overrides(d, c) == map[0 := Profile(Some(NO_MODELS), map[])] && !Contained(Overrides(d, c), map[])
  {
    var d := map[0 := Profile(Some(NO_MODELS), map[])];
    var c := map[0 := Profile(None, map[])];
    var o := Overrides(d, c);
    assert DiffProfile(d[0], c[0]) == Profile(Some(NO_MODELS), map[]);
    assert o == map[0 := Profile(Some(NO_MODELS), map[])];
    assert Merge(d, map[]) == d;
    assert Merge(d, o)[0] == d[0];
  }

  lemma RedundantEntry(d: Profiles, c: Profiles, e: Executor) returns (other: Profiles)
    requires Covers(d, c) && e in c && Redundant(d, c, e)
    ensures Merge(d, other) == Merge(d, Overrides(d, c)) && !Contained(Overrides(d, c), other)
  {
    var o := Overrides(d, c);
    assert DiffProfile(d[e], c[e]).recent == Some(NO_MODELS);
    other := o[e := o[e].(recent := None)];
    assert MergeProfile(d[e], other[e]) == MergeProfile(d[e], o[e]);
    hide DiffProfile, MergeProfile, Overridden;
    assert Merge(d, other) == Merge(d, o);
  }

  // ---------- Canonical variant keys ----------

  ghost predicate Idempotent(canon: string -> string) { forall k :: canon(canon(k)) == canon(k) }

  ghost predicate FromKey(canon: string -> string, before: map<string, Config>, k: string, v: Config)
  {
    exists o :: o in before && canon(o) == k && before[o] == v
  }

  /** `after` is `before` under canonical keys: the keys are the canonical forms of the old keys, a
      value already under a canonical key stays, and every value comes from a key of that form. */
  ghost predicate Canonicalised(canon: string -> string, before: map<string, Config>, after: map<string, Config>)
  {
    && (forall o :: o in before ==> canon(o) in after)
    && (forall k :: k in after ==> FromKey(canon, before, k, after[k]))
    && (forall k :: k in before && canon(k) == k ==> after[k] == before[k])
  }

  /** The state after some of the old keys have been moved. */
  ghost predicate Moved(canon: string -> string, before: map<string, Config>, done: set<string>, m: map<string, Config>)
  {
    && (forall o :: o in before && o !in done ==> o in m && m[o] == before[o])
    && (forall o :: o in done ==> o in before && canon(o) != o && canon(o) in m)
    && (forall k :: k in m ==> (k in before && k !in done) || (canon(k) == k && FromKey(canon, before, k, m[k])))
  }

  lemma MoveOne(canon: string -> string, before: map<string, Config>, done: set<string>, m: map<string, Config>,
                key: string)
    requires Idempotent(canon) && Moved(canon, before, done, m)
    requires key in before && key !in done && canon(key) != key
    ensures var rest := m - {key};
      var next := if canon(key) in rest then rest else rest[canon(key) := m[key]];
      Moved(canon, before, done + {key}, next)
  {
    assert canon(canon(key)) == canon(key);
    assert FromKey(canon, before, canon(key), before[key]);
    hide FromKey;
  }

  method CanonicaliseConfigs(canon: string -> string, configs: map<string, Config>) returns (m: map<string, Config>)
    requires Idempotent(canon)
    ensures Canonicalised(canon, configs, m)
  {
    hide Idempotent;
    var replacements := CollectReplacements(canon, configs.Keys);
    m := configs;
    ghost var done: set<string> := {};
    var i := 0;
    while i < |replacements|
      invariant 0 <= i <= |replacements|
      invariant Moved(canon, configs, done, m)
      invariant forall j :: 0 <= j < i ==> replacements[j].0 in done
      invariant forall j :: i <= j < |replacements| ==> replacements[j].0 !in done
    {
      var (key, target) := replacements[i];
      MoveOne(canon, configs, done, m, key);
      if key in m {
        var config := m[key];
        m := m - {key};
        if target !in m { m := m[target := config]; }
      }
      done := done + {key};
      i := i + 1;
    }
    forall k | k in m && k in configs && k !in done ensures canon(k) == k && FromKey(canon, configs, k, m[k]) {
      assert canon(k) != k ==> (k, canon(k)) in replacements;
    }
  }

  /** The non-canonical keys with their canonical forms, in any order. */
  method CollectReplacements(canon: string -> string, keys: set<string>) returns (r: seq<(string, string)>)
    ensures forall i :: 0 <= i < |r| ==> r[i].0 in keys && r[i].1 == canon(r[i].0) && r[i].1 != r[i].0
    ensures forall i, j :: 0 <= i < j < |r| ==> r[i].0 != r[j].0
    ensures forall k :: k in keys && canon(k) != k ==> (k, canon(k)) in r
  {
    r := [];
    var todo := keys;
    while todo != {}
      invariant todo <= keys
      invariant forall i :: 0 <= i < |r| ==> r[i].0 in keys - todo && r[i].1 == canon(r[i].0) && r[i].1 != r[i].0
      invariant forall i, j :: 0 <= i < j < |r| ==> r[i].0 != r[j].0
      invariant forall k :: k in keys - todo && canon(k) != k ==> (k, canon(k)) in r
      decreases |todo|
    {
      var k :| k in todo;
      if canon(k) != k { r := r + [(k, canon(k))]; }
      todo := todo - {k};
    }
  }

  /** The same for every executor's profile. */
  ghost predicate AllCanonicalised(canon: string -> string, before: Profiles, after: Profiles)
  {
    && after.Keys == before.Keys
    && forall e :: e in before ==>
      after[e].recent == before[e].recent && Canonicalised(canon, before[e].configs, after[e].configs)
  }

  class ExecutorConfigs {
    var executors: Profiles

    constructor (executors: Profiles)
      ensures this.executors == executors
    {
      this.executors := executors;
    }

    /** Normalise all variant keys in place. */
    method Canonicalise(canon: string -> string)
      requires Idempotent(canon)
      modifies this
      ensures AllCanonicalised(canon, old(executors), executors)
    {
      hide Canonicalised, Idempotent;
      var todo := executors.Keys;
      while todo != {}
        invariant todo <= executors.Keys == old(executors).Keys
        invariant forall e :: e in todo ==> executors[e] == old(executors)[e]
        invariant forall e :: e in executors.Keys - todo ==>
          && executors[e].recent == old(executors)[e].recent
          && Canonicalised(canon, old(executors)[e].configs, executors[e].configs)
        decreases |todo|
      {
        var e :| e in todo;
        var configs := CanonicaliseConfigs(canon, executors[e].configs);
        executors := executors[e := executors[e].(configs := configs)];
        todo := todo - {e};
      }
    }
  }

  lemma CanonicalKeysOnly(canon: string -> string, before: map<string, Config>, after: map<string, Config>)
    requires Idempotent(canon) && Canonicalised(canon, before, after)
    ensures forall k :: k in after ==> canon(k) == k
  {}

  /** A second canonicalisation changes nothing, whatever order the first one took. */
  lemma CanonicalisedTwice(canon: string -> string, a: map<string, Config>, b: map<string, Config>, c: map<string,
                           Config>)
    requires Idempotent(canon) && Canonicalised(canon, a, b) && Canonicalised(canon, b, c)
    ensures c == b
  {
    CanonicalKeysOnly(canon, a, b);
    CanonicalAlready(canon, b, c);
  }

  lemma CanonicalAlready(canon: string -> string, b: map<string, Config>, c: map<string, Config>)
    requires Canonicalised(canon, b, c) && forall k :: k in b ==> canon(k) == k
    ensures c == b
  {
    assert forall k :: k in b ==> k in c && c[k] == b[k];
    forall k | k in c ensures k in b {
      assert FromKey(canon, b, k, c[k]);
    }
  }

  ghost predicate CanonicalProfiles(canon: string -> string, p: Profiles)
  {
    forall e, k :: e in p && k in p[e].configs ==> canon(k) == k
  }

  lemma CanonicalProfilesStay(canon: string -> string, p: Profiles, q: Profiles)
    requires CanonicalProfiles(canon, p) && AllCanonicalised(canon, p, q)
    ensures q == p
  {
    forall e | e in p ensures q[e] == p[e] {
      CanonicalAlready(canon, p[e].configs, q[e].configs);
    }
  }

  /** Keys that share a canonical form which is not itself a key hold the same value, so that the
      order in which they are moved does not matter. */
  ghost predicate Unambiguous(canon: string -> string, configs: map<string, Config>)
  {
    forall o, o' :: o in configs && o' in configs && canon(o) == canon(o') && canon(o) !in configs ==>
      configs[o] == configs[o']
  }

  lemma CanonicalisedAlike(canon: string -> string, a: map<string, Config>, b: map<string, Config>, c: map<string,
                           Config>)
    requires Idempotent(canon) && Unambiguous(canon, a) && Canonicalised(canon, a, b) && Canonicalised(canon, a, c)
    ensures b == c
  {
    forall k | k in b ensures k in c && b[k] == c[k] {
      var o :| o in a && canon(o) == k && a[o] == b[k];
      assert canon(o) in c;
      var o' :| o' in a && canon(o') == k && a[o'] == c[k];
      assert canon(k) == k;
    }
    forall k | k in c ensures k in b {
      var o :| o in a && canon(o) == k && a[o] == c[k];
    }
  }

  /** One possible outcome of canonicalisation, with `first` preferred where there is a choice. */
  ghost function Outcome(canon: string -> string, a: map<string, Config>, first: string): map<string, Config>
  {
    map k | k in (set o | o in a :: canon(o)) :: Chosen(canon, a, first, k)
  }

  ghost function Chosen(canon: string -> string, a: map<string, Config>, first: string, k: string): Config
    requires exists o :: o in a && canon(o) == k
  {
    if k in a && canon(k) == k then a[k]
    else if first in a && canon(first) == k then a[first]
    else var o :| o in a && canon(o) == k; a[o]
  }

  lemma OutcomeCanonicalises(canon: string -> string, a: map<string, Config>, first: string)
    ensures Canonicalised(canon, a, Outcome(canon, a, first))
  {
    var b := Outcome(canon, a, first);
    forall k | k in b ensures FromKey(canon, a, k, b[k]) {
      assert b[k] == Chosen(canon, a, first, k);
    }
  }

  /** The outcome does not depend on the order exactly when no two keys compete with different values. */
  lemma OrderIrrelevantIff(canon: string -> string, a: map<string, Config>)
    requires Idempotent(canon)
    ensures (forall b, c :: Canonicalised(canon, a, b) && Canonicalised(canon, a, c) ==> b == c) <==>
            Unambiguous(canon, a)
  {
    if Unambiguous(canon, a) {
      forall b, c | Canonicalised(canon, a, b) && Canonicalised(canon, a, c) ensures b == c {
        CanonicalisedAlike(canon, a, b, c);
      }
    } else {
      var o, o' :| o in a && o' in a && canon(o) == canon(o') && canon(o) !in a && a[o] != a[o'];
      OutcomeCanonicalises(canon, a, o);
      OutcomeCanonicalises(canon, a, o');
      assert Outcome(canon, a, o)[canon(o)] == a[o] && Outcome(canon, a, o')[canon(o)] == a[o'];
    }
  }

  /** Two spellings of one variant with different settings: either may survive. */
  lemma CompetingSpellings(canon: string -> string)
    requires canon("plan") == canon("Plan") == canon("PLAN") == "PLAN"
    ensures var configs := map["plan" := "fast", "Plan" := "slow"];
      && !Unambiguous(canon, configs)
      && Canonicalised(canon, configs, map["PLAN" := "fast"]) && Canonicalised(canon, configs, map["PLAN" := "slow"])
  {
    var configs := map["plan" := "fast", "Plan" := "slow"];
    assert "plan"[0] == 'p' && "Plan"[0] == 'P' && "plan"[1] == 'l' && "PLAN"[1] == 'L' && "Plan"[1] == 'l';
    assert "plan" != "Plan" && "PLAN" != "plan" && "PLAN" != "Plan";
    assert configs["plan"] == "fast" && configs["Plan"] == "slow";
    assert "fast"[0] == 'f' && "slow"[0] == 's';
    assert FromKey(canon, configs, "PLAN", "fast") && FromKey(canon, configs, "PLAN", "slow");
    hide FromKey;
  }

  ghost predicate AllUnambiguous(canon: string -> string, p: Profiles)
  {
    forall e :: e in p ==> Unambiguous(canon, p[e].configs)
  }

  lemma DefaultsAlike(canon: string -> string, p: Profiles, q: Profiles, r: Profiles)
    requires Idempotent(canon) && AllUnambiguous(canon, p)
    requires AllCanonicalised(canon, p, q) && AllCanonicalised(canon, p, r)
    ensures q == r
  {
    forall e | e in p ensures q[e] == r[e] {
      CanonicalisedAlike(canon, p[e].configs, q[e].configs, r[e].configs);
    }
  }

  /** A save followed by a load: the built-in profiles are brought to canonical keys as `d1` and `d2`,
      the current ones as `saved`, and the stored overrides as `stored`, each in any order. */
  ghost predicate SavedAndLoaded(canon: string -> string, defaults: Profiles, current: Profiles,
                                 d1: Profiles, saved: Profiles, d2: Profiles, stored: Profiles)
  {
    && AllCanonicalised(canon, defaults, d1) && AllCanonicalised(canon, current, saved) && Covers(d1, saved)
    && AllCanonicalised(canon, defaults, d2) && AllCanonicalised(canon, Overrides(d1, saved), stored)
  }

  /** When no two built-in keys compete, what is loaded is the canonical form of what was saved, with
      dropped recent models as an empty record. */
  lemma SaveThenLoad(canon: string -> string, defaults: Profiles, current: Profiles,
                     d1: Profiles, saved: Profiles, d2: Profiles, stored: Profiles)
    requires Idempotent(canon) && SavedAndLoaded(canon, defaults, current, d1, saved, d2, stored)
    ensures AllUnambiguous(canon, defaults) ==> Merge(d2, stored) == Restored(d1, saved)
  {
    hide Idempotent, AllUnambiguous, Covers, Overrides, Merge, Restored, AllCanonicalised;
    StoredAsComputed(canon, current, d1, saved, stored);
    if AllUnambiguous(canon, defaults) {
      DefaultsAlike(canon, defaults, d1, d2);
      OverridesRestore(d1, saved);
    }
  }

  /** Saving and loading again loses no configuration, in any order. */
  lemma SaveThenLoadKeeps(canon: string -> string, defaults: Profiles, current: Profiles,
                          d1: Profiles, saved: Profiles, d2: Profiles, stored: Profiles, e: Executor, k: string)
    requires Idempotent(canon) && SavedAndLoaded(canon, defaults, current, d1, saved, d2, stored)
    requires e in current && k in current[e].configs
    ensures e in Merge(d2, stored) && canon(k) in Merge(d2, stored)[e].configs
  {
    hide Idempotent, AllUnambiguous, Covers, Overrides, Merge, AllCanonicalised;
    StoredAsComputed(canon, current, d1, saved, stored);
    KeyKept(canon, current, saved, e, k);
    NothingLost(canon, defaults, d1, saved, d2, e, canon(k));
  }

  lemma KeyKept(canon: string -> string, before: Profiles, after: Profiles, e: Executor, k: string)
    requires AllCanonicalised(canon, before, after) && e in before && k in before[e].configs
    ensures e in after && canon(k) in after[e].configs
  {
    hide FromKey;
  }

  lemma CanonicalAfter(canon: string -> string, p: Profiles, q: Profiles)
    requires Idempotent(canon) && AllCanonicalised(canon, p, q)
    ensures CanonicalProfiles(canon, q)
  {
    hide Canonicalised, Idempotent;
    forall e | e in q ensures forall k :: k in q[e].configs ==> canon(k) == k {
      CanonicalKeysOnly(canon, p[e].configs, q[e].configs);
    }
  }

  /** Computed overrides have canonical keys already. */
  lemma StoredAsComputed(canon: string -> string, current: Profiles, d: Profiles, saved: Profiles, stored: Profiles)
    requires Idempotent(canon) && AllCanonicalised(canon, current, saved)
    requires AllCanonicalised(canon, Overrides(d, saved), stored)
    ensures stored == Overrides(d, saved)
  {
    hide AllCanonicalised, Idempotent, CanonicalProfiles, Overrides;
    CanonicalAfter(canon, current, saved);
    OverridesCanonical(canon, d, saved);
    CanonicalProfilesStay(canon, Overrides(d, saved), stored);
  }

  /** A configuration of the saved profiles is an override, or built in under the same key. */
  lemma NothingLost(canon: string -> string, defaults: Profiles, d1: Profiles, saved: Profiles, d2: Profiles,
                    e: Executor, k: string)
    requires AllCanonicalised(canon, defaults, d1) && AllCanonicalised(canon, defaults, d2)
    requires e in saved && k in saved[e].configs
    ensures e in Merge(d2, Overrides(d1, saved)) && k in Merge(d2, Overrides(d1, saved))[e].configs
  {
    var o := Overrides(d1, saved);
    if e in d1 && k in d1[e].configs {
      assert FromKey(canon, defaults[e].configs, k, d1[e].configs[k]);
      assert k in d2[e].configs;
    } else if e in d1 {
      assert k in DiffProfile(d1[e], saved[e]).configs;
    }
  }

  ghost function OutcomeOfAll(canon: string -> string, p: Profiles, first: string): (q: Profiles)
  {
    map e | e in p :: p[e].(configs := Outcome(canon, p[e].configs, first))
  }

  lemma AllOutcomes(canon: string -> string, p: Profiles, first: string)
    ensures AllCanonicalised(canon, p, OutcomeOfAll(canon, p, first))
  {
    forall e | e in p { OutcomeCanonicalises(canon, p[e].configs, first); }
    hide Canonicalised, Outcome;
  }

  lemma CanonicalStays(canon: string -> string, p: Profiles)
    requires CanonicalProfiles(canon, p)
    ensures AllCanonicalised(canon, p, p)
  {
    forall e, k | e in p && k in p[e].configs ensures FromKey(canon, p[e].configs, k, p[e].configs[k]) {
      assert canon(k) == k;
    }
  }

  /** What is loaded is what was saved for every current profile and every order, exactly when no two
      built-in keys compete. */
  lemma SaveThenLoadIff(canon: string -> string, defaults: Profiles)
    requires Idempotent(canon)
    ensures (forall current, d1, saved, d2, stored ::
               SavedAndLoaded(canon, defaults, current, d1, saved, d2, stored) ==>
                 Merge(d2, stored) == Restored(d1, saved)) <==> AllUnambiguous(canon, defaults)
  {
    if AllUnambiguous(canon, defaults) {
      forall current, d1, saved, d2, stored | SavedAndLoaded(canon, defaults, current, d1, saved, d2, stored)
        ensures Merge(d2, stored) == Restored(d1, saved)
      {
        SaveThenLoad(canon, defaults, current, d1, saved, d2, stored);
      }
    } else {
      var e :| e in defaults && !Unambiguous(canon, defaults[e].configs);
      var d1, d2 := OrdersDisagree(canon, defaults, e);
      LoadedUnchanged(canon, defaults, d1, d2);
    }
  }

  lemma OrdersDisagree(canon: string -> string, defaults: Profiles, e: Executor) returns (d1: Profiles, d2: Profiles)
    requires e in defaults && !Unambiguous(canon, defaults[e].configs)
    ensures AllCanonicalised(canon, defaults, d1) && AllCanonicalised(canon, defaults, d2) && d1 != d2
  {
    var a := defaults[e].configs;
    var o, o' :| o in a && o' in a && canon(o) == canon(o') && canon(o) !in a && a[o] != a[o'];
    d1, d2 := OutcomeOfAll(canon, defaults, o), OutcomeOfAll(canon, defaults, o');
    AllOutcomes(canon, defaults, o);
    AllOutcomes(canon, defaults, o');
    assert d1[e].configs[canon(o)] == a[o] && d2[e].configs[canon(o)] == a[o'];
  }

  lemma NothingToOverride(p: Profiles)
    ensures Overrides(p, p) == map[]
  {
    forall e | e in p ensures !Overridden(p, p, e) {
      assert DiffProfile(p[e], p[e]).configs == map[];
    }
  }

  /** Saving the built-in profiles stores nothing, and loading brings up whatever order comes next. */
  lemma LoadedUnchanged(canon: string -> string, defaults: Profiles, d1: Profiles, d2: Profiles)
    requires Idempotent(canon) && AllCanonicalised(canon, defaults, d1) && AllCanonicalised(canon, defaults, d2)
    ensures SavedAndLoaded(canon, defaults, d1, d1, d1, d2, map[])
    ensures Merge(d2, map[]) == d2 && Restored(d1, d1) == d1
  {
    hide Canonicalised, Idempotent, Overrides;
    CanonicalAfter(canon, defaults, d1);
    CanonicalStays(canon, d1);
    NothingToOverride(d1);
    assert AllCanonicalised(canon, map[], map[]);
    assert Covers(d1, d1);
    hide AllCanonicalised, Covers;
  }

  lemma OverridesCanonical(canon: string -> string, d: Profiles, c: Profiles)
    requires CanonicalProfiles(canon, c)
    ensures CanonicalProfiles(canon, Overrides(d, c))
  {}
}
