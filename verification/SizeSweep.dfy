/** Two writers of a tmux client's ignore-size flag: visibility events, which write the presence
    registry and then tmux, and the periodic sweep, which reads tmux and then the registry. */
module SizeSweep {
  import opened Text

  // ---------- The decision ----------

  const FRESH_INPUT_SECS := 60
  const VISIBLE_PRESENCE_STALE_SECS := 300
  const MANUAL_CLIENT_IDLE_SECS := 1200

  datatype SizingPresence = SizingPresence(visible: bool, lastVisibleAgo: nat, changedAgo: nat)

  predicate ShouldIgnore(inputIdle: nat, presence: Option<SizingPresence>)
  {
    match presence
    case Some(p) =>
      if !p.visible then !(inputIdle < p.changedAgo && inputIdle < FRESH_INPUT_SECS)
      else p.lastVisibleAgo >= VISIBLE_PRESENCE_STALE_SECS
    case None => inputIdle > MANUAL_CLIENT_IDLE_SECS
  }

  function DesiredIgnore(inputIdle: nat, presence: Option<SizingPresence>, seenBefore: bool): Option<bool>
  {
    if presence.None? && !seenBefore then None else Some(ShouldIgnore(inputIdle, presence))
  }

  /** The sweep decides as the event did (ignore exactly the hidden) unless a hidden client typed
      after hiding within the last minute, or a visible one missed five minutes of heartbeats. */
  lemma SweepDecidesLikeEventIff(inputIdle: nat, p: SizingPresence, seenBefore: bool)
    ensures DesiredIgnore(inputIdle, Some(p), seenBefore) == Some(!p.visible) <==>
            if p.visible then p.lastVisibleAgo < 300 else inputIdle >= p.changedAgo || inputIdle >= 60
  {}

  /** A client without a presence is left alone when first seen, and then excluded exactly after more
      than twenty minutes without input. */
  lemma ManualClientIff(inputIdle: nat, seenBefore: bool)
    ensures DesiredIgnore(inputIdle, None, seenBefore) == Some(true) <==> seenBefore && inputIdle > 20 * 60
    ensures DesiredIgnore(inputIdle, None, seenBefore) == Some(false) <==> seenBefore && inputIdle <= 20 * 60
  {}

  // ---------- The race ----------

  type Pid = nat

  /** A registry entry and a flag, each stamped with the visibility change it reflects. */
  datatype Presence = Presence(version: nat, visible: bool)
  datatype Flag = Flag(version: nat, ignore: bool)

  function Decision(p: Presence): Flag { Flag(p.version, !p.visible) }

  /** A client of the web terminal has a presence, one attached by hand has none. `refreshing` while an
      event has written the registry but not yet tmux; `failed` once such a write to tmux has failed. */
  datatype Client = Client(presence: Option<Presence>, flag: Flag, refreshing: bool, failed: bool)

  datatype Phase =
    | Fresh
    | HasFlags(flags: map<Pid, Flag>)
    | HasPresence(presences: map<Pid, Option<Presence>>)
    | Writing(todo: map<Pid, Flag>)

  /** `sweeps` are the sweep tasks alive, `touched` the clients whose event overlaps a sweep. */
  datatype State = State(clients: map<Pid, Client>, running: bool, sweeps: seq<Phase>, touched: set<Pid>)

  /** `idle` are the clients without a presence that the sweep finds idle or active enough to switch. */
  datatype Event =
    | SetPresence(pid: Pid, visible: bool)
    | RefreshFlag(pid: Pid)
    | RefreshFails(pid: Pid)
    | TrySweep
    | ReadFlags(sweep: nat, idle: set<Pid>)
    | ListFails(sweep: nat)
    | ReadPresence(sweep: nat, idle: set<Pid>)
    | WriteFlag(sweep: nat, pid: Pid)
    | SkipWrite(sweep: nat, pid: Pid)
    | EndSweep(sweep: nat)

  datatype Order = FlagsFirst | PresenceFirst

  function FlagsOf(clients: map<Pid, Client>): map<Pid, Flag> { map pid | pid in clients :: clients[pid].flag }

  function PresencesOf(clients: map<Pid, Client>): map<Pid, Option<Presence>>
  {
    map pid | pid in clients :: clients[pid].presence
  }

  predicate Moves(flag: Flag, presence: Option<Presence>, idle: bool)
  {
    if presence.Some? then flag.ignore != Decision(presence.value).ignore else idle
  }

  function Target(flag: Flag, presence: Option<Presence>): Flag
  {
    if presence.Some? then Decision(presence.value) else Flag(flag.version, !flag.ignore)
  }

  /** The clients whose flag does not match what their presence asks for, and those of `idle`. */
  function Transitions(flags: map<Pid, Flag>, presences: map<Pid, Option<Presence>>, idle: set<Pid>): map<Pid, Flag>
  {
    map pid | pid in flags && pid in presences && Moves(flags[pid], presences[pid], pid in idle) ::
      Target(flags[pid], presences[pid])
  }

  /** One visibility event per client at a time. */
  ghost predicate Enabled(order: Order, s: State, e: Event)
  {
    match e
    case SetPresence(pid, visible) =>
      && pid in s.clients && s.clients[pid].presence.Some? && s.clients[pid].presence.value.visible != visible
      && !s.clients[pid].refreshing
    case RefreshFlag(pid) => pid in s.clients && s.clients[pid].presence.Some? && s.clients[pid].refreshing
    case RefreshFails(pid) => pid in s.clients && s.clients[pid].presence.Some? && s.clients[pid].refreshing
    case TrySweep => true
    case ReadFlags(i, _) => i < |s.sweeps| && if order.FlagsFirst? then s.sweeps[i].Fresh? else s.sweeps[i].HasPresence?
    case ListFails(i) => i < |s.sweeps| && if order.FlagsFirst? then s.sweeps[i].Fresh? else s.sweeps[i].HasPresence?
    case ReadPresence(i, _) => i < |s.sweeps| && if order.FlagsFirst? then s.sweeps[i].HasFlags? else s.sweeps[i].Fresh?
    case WriteFlag(i, pid) => i < |s.sweeps| && s.sweeps[i].Writing? && pid in s.sweeps[i].todo && pid in s.clients
    case SkipWrite(i, pid) => i < |s.sweeps| && s.sweeps[i].Writing? && pid in s.sweeps[i].todo
    case EndSweep(i) => i < |s.sweeps| && s.sweeps[i] == Writing(map[])
  }

  function Refreshing(clients: map<Pid, Client>): set<Pid> { set pid | pid in clients && clients[pid].refreshing }

  ghost function Step(order: Order, s: State, e: Event): State
    requires Enabled(order, s, e)
  {
    match e
    case SetPresence(pid, visible) =>
      var c := s.clients[pid];
      var next := Presence(c.presence.value.version + 1, visible);
      s.(clients := s.clients[pid := c.(presence := Some(next), refreshing := true)], touched := s.touched + {pid})
    case RefreshFlag(pid) =>
      var c := s.clients[pid];
      s.(clients := s.clients[pid := c.(flag := Decision(c.presence.value), refreshing := false)])
    case RefreshFails(pid) => s.(clients := s.clients[pid := s.clients[pid].(refreshing := false, failed := true)])
    case TrySweep =>
      // compare-and-exchange: a sweep starts only when none is running
      if s.running then s
      else s.(running := true, sweeps := s.sweeps + [Fresh], touched := Refreshing(s.clients))
    case ReadFlags(i, idle) =>
      var flags := FlagsOf(s.clients);
      s.(sweeps := s.sweeps[i := if s.sweeps[i].Fresh? then HasFlags(flags)
                                 else Writing(Transitions(flags, s.sweeps[i].presences, idle))])
    case ListFails(i) => s.(sweeps := s.sweeps[i := if s.sweeps[i].Fresh? then HasFlags(map[]) else Writing(map[])])
    case ReadPresence(i, idle) =>
      var presences := PresencesOf(s.clients);
      s.(sweeps := s.sweeps[i := if s.sweeps[i].Fresh? then HasPresence(presences)
                                 else Writing(Transitions(s.sweeps[i].flags, presences, idle))])
    case WriteFlag(i, pid) =>
      var flag := s.sweeps[i].todo[pid];
      s.(clients := s.clients[pid := s.clients[pid].(flag := flag)],
         sweeps := s.sweeps[i := Writing(s.sweeps[i].todo - {pid})])
    case SkipWrite(i, pid) => s.(sweeps := s.sweeps[i := Writing(s.sweeps[i].todo - {pid})])
    case EndSweep(i) => s.(running := false, sweeps := s.sweeps[..i] + s.sweeps[i + 1..])
  }

  /** A second event of a client that overlaps the sweep alive. */
  predicate SecondEvent(s: State, e: Event) { e.SetPresence? && s.sweeps != [] && e.pid in s.touched }

  ghost predicate IsTrace(order: Order, states: seq<State>, events: seq<Event>)
  {
    && |states| == |events| + 1
    && forall i :: 0 <= i < |events| ==>
      Enabled(order, states[i], events[i]) && states[i + 1] == Step(order, states[i], events[i])
  }

  /** A run that starts with every flag agreeing with its presence and no sweep alive, in which at most
      one event of a client overlaps each sweep. */
  ghost predicate IsRun(order: Order, states: seq<State>, events: seq<Event>)
  {
    && IsTrace(order, states, events) && Start(states[0])
    && forall i :: 0 <= i < |events| ==> !SecondEvent(states[i], events[i])
  }

  /** The flag is what the presence asks for, if there is one. */
  ghost predicate Agrees(c: Client) { c.presence.Some? ==> c.flag.ignore == !c.presence.value.visible }

  ghost predicate NotAhead(c: Client) { c.presence.Some? ==> c.flag.version <= c.presence.value.version }

  ghost predicate Start(s: State)
  {
    && !s.running && s.sweeps == []
    && forall pid :: pid in s.clients ==>
      var c := s.clients[pid];
      !c.refreshing && !c.failed && NotAhead(c) && Agrees(c)
  }

  // ---------- Invariant of the source's order ----------

  ghost predicate ClientOk(c: Client) { NotAhead(c) && (!c.refreshing && !c.failed ==> Agrees(c)) }

  ghost predicate ReadOk(c: Client, flag: Flag, touched: bool)
  {
    c.presence.Some? ==> flag.version <= c.presence.value.version && (!touched ==> flag == c.flag)
  }

  ghost predicate TransitionOk(c: Client, flag: Flag, touched: bool)
  {
    c.presence.Some? ==>
      && (flag == Decision(c.presence.value) || (touched && OneBehind(flag, c.presence.value)))
      && (!c.failed ==> touched && flag == Decision(c.presence.value))
  }

  /** The decision for the presence before this one. */
  ghost predicate OneBehind(flag: Flag, p: Presence) { p.version > 0 && flag == Flag(p.version - 1, p.visible) }

  ghost predicate SweepOk(s: State, phase: Phase)
  {
    match phase
    case Fresh => true
    case HasPresence(_) => false
    case HasFlags(flags) =>
      forall pid :: pid in flags && pid in s.clients ==> ReadOk(s.clients[pid], flags[pid], pid in s.touched)
    case Writing(todo) =>
      forall pid :: pid in todo && pid in s.clients ==> TransitionOk(s.clients[pid], todo[pid], pid in s.touched)
  }

  ghost predicate Inv(s: State)
  {
    && |s.sweeps| == (if s.running then 1 else 0)
    && (forall pid :: pid in s.clients ==> ClientOk(s.clients[pid]))
    && (s.sweeps != [] ==> forall pid :: pid in s.clients && s.clients[pid].refreshing ==> pid in s.touched)
    && (forall i :: 0 <= i < |s.sweeps| ==> SweepOk(s, s.sweeps[i]))
  }

  lemma InvKept(s: State, e: Event)
    requires Inv(s) && Enabled(FlagsFirst, s, e) && !SecondEvent(s, e)
    ensures Inv(Step(FlagsFirst, s, e))
  {
    ClientsKept(s, e);
    if Step(FlagsFirst, s, e).sweeps != [] { SweepKept(s, e); }
    hide SweepOk, ClientOk;
  }

  lemma ClientsKept(s: State, e: Event)
    requires Inv(s) && Enabled(FlagsFirst, s, e) && !SecondEvent(s, e)
    ensures forall pid :: pid in Step(FlagsFirst, s, e).clients ==> ClientOk(Step(FlagsFirst, s, e).clients[pid])
  {}

  lemma SweepKept(s: State, e: Event)
    requires Inv(s) && Enabled(FlagsFirst, s, e) && !SecondEvent(s, e)
    requires Step(FlagsFirst, s, e).sweeps != []
    ensures SweepOk(Step(FlagsFirst, s, e), Step(FlagsFirst, s, e).sweeps[0])
  {}

  lemma TraceStep(order: Order, states: seq<State>, events: seq<Event>, k: nat)
    requires IsTrace(order, states, events) && k < |events|
    ensures k + 1 < |states|
    ensures Enabled(order, states[k], events[k]) && states[k + 1] == Step(order, states[k], events[k])
  {
    hide Step, Enabled;
  }

  lemma {:induction false} InvAlways(states: seq<State>, events: seq<Event>, k: nat)
    requires IsRun(FlagsFirst, states, events) && k < |states|
    ensures Inv(states[k])
  {
    if k > 0 {
      InvAlways(states, events, k - 1);
      TraceStep(FlagsFirst, states, events, k - 1);
      hide Step, Enabled, Inv;
      InvKept(states[k - 1], events[k - 1]);
    }
  }

  /** In every reachable state a client with no event in flight, none of whose events failed to write
      tmux, has the flag its presence asks for: even in the middle of a sweep, and whichever listings
      and writes of the sweeps fail. */
  lemma FlagAgreesAtQuiescence(states: seq<State>, events: seq<Event>, k: nat, pid: Pid)
    requires IsRun(FlagsFirst, states, events) && k < |states|
    requires pid in states[k].clients && !states[k].clients[pid].refreshing && !states[k].clients[pid].failed
    ensures Agrees(states[k].clients[pid])
  {
    InvAlways(states, events, k);
  }

  /** Two sweeps are never alive at once. */
  lemma SweepsNeverOverlap(states: seq<State>, events: seq<Event>, k: nat)
    requires IsRun(FlagsFirst, states, events) && k < |states|
    ensures |states[k].sweeps| <= 1
  {
    InvAlways(states, events, k);
  }

  /** A sweep never sees a newer flag than the presence it reads afterwards. */
  lemma NoNewFlagWithOldPresence(states: seq<State>, events: seq<Event>, k: nat, i: nat, pid: Pid)
    requires IsRun(FlagsFirst, states, events) && k < |events| && events[k].ReadPresence? && events[k].sweep == i
    requires i < |states[k].sweeps| && states[k].sweeps[i].HasFlags?
    requires pid in states[k].sweeps[i].flags && pid in states[k].clients && states[k].clients[pid].presence.Some?
    ensures states[k].sweeps[i].flags[pid].version <= states[k].clients[pid].presence.value.version
  {
    InvAlways(states, events, k);
  }

  // ---------- When a late write reverts an event ----------

  /** How many events have changed the presence since the version a flag reflects. */
  function Behind(flag: Flag, p: Presence): int { p.version - flag.version }

  /** A flag still to be written is the decision for some presence the client has had. */
  ghost predicate Dated(flag: Flag, presence: Option<Presence>)
  {
    presence.Some? ==>
      && Behind(flag, presence.value) >= 0
      && (flag.ignore == !presence.value.visible <==> Behind(flag, presence.value) % 2 == 0)
  }

  ghost predicate WritesDated(s: State)
  {
    forall i :: 0 <= i < |s.sweeps| ==>
      && !s.sweeps[i].HasPresence?
      && (s.sweeps[i].Writing? ==>
            forall pid :: pid in s.sweeps[i].todo && pid in s.clients ==>
              Dated(s.sweeps[i].todo[pid], s.clients[pid].presence))
  }

  lemma WritesDatedKept(s: State, e: Event)
    requires WritesDated(s) && Enabled(FlagsFirst, s, e)
    ensures WritesDated(Step(FlagsFirst, s, e))
  {}

  lemma {:induction false} WritesDatedAlways(states: seq<State>, events: seq<Event>, k: nat)
    requires IsTrace(FlagsFirst, states, events) && states[0].sweeps == [] && k < |states|
    ensures WritesDated(states[k])
  {
    if k > 0 {
      WritesDatedAlways(states, events, k - 1);
      TraceStep(FlagsFirst, states, events, k - 1);
      hide Step, Enabled, WritesDated;
      WritesDatedKept(states[k - 1], events[k - 1]);
    }
  }

  /** However many events overlap and whatever has failed, a sweep's write leaves its client with the
      right flag exactly when an even number of events changed the presence since the sweep read it. */
  lemma RepairAgreesIff(states: seq<State>, events: seq<Event>, k: nat)
    requires IsTrace(FlagsFirst, states, events) && states[0].sweeps == [] && k < |events|
    requires events[k].WriteFlag? && events[k].pid in states[k].clients
    requires states[k].clients[events[k].pid].presence.Some?
    ensures var (i, pid) := (events[k].sweep, events[k].pid);
      && i < |states[k].sweeps| && states[k].sweeps[i].Writing? && pid in states[k].sweeps[i].todo
      && pid in states[k + 1].clients
      && var late := Behind(states[k].sweeps[i].todo[pid], states[k].clients[pid].presence.value);
         late >= 0 && (Agrees(states[k + 1].clients[pid]) <==> late % 2 == 0)
  {
    WritesDatedAlways(states, events, k);
    TraceStep(FlagsFirst, states, events, k);
  }

  /** With at most one event per client overlapping each sweep, the write reverts an event exactly when
      that event changed the presence after the sweep read it, and only after an earlier one failed. */
  lemma RepairRevertsIff(states: seq<State>, events: seq<Event>, k: nat)
    requires IsRun(FlagsFirst, states, events) && k < |events|
    requires events[k].WriteFlag? && events[k].pid in states[k].clients
    requires states[k].clients[events[k].pid].presence.Some?
    ensures var (i, pid) := (events[k].sweep, events[k].pid);
      && i < |states[k].sweeps| && states[k].sweeps[i].Writing? && pid in states[k].sweeps[i].todo
      && pid in states[k + 1].clients
      && var late := Behind(states[k].sweeps[i].todo[pid], states[k].clients[pid].presence.value);
         && 0 <= late <= 1 && (!Agrees(states[k + 1].clients[pid]) <==> late == 1)
         && (late == 1 ==> states[k].clients[pid].failed)
  {
    RepairAgreesIff(states, events, k);
    InvAlways(states, events, k);
  }

  // ---------- Runs that go wrong ----------

  ghost predicate EndsWrong(s: State)
  {
    s.sweeps == [] && 0 in s.clients && !s.clients[0].refreshing && !Agrees(s.clients[0])
  }

  const SHOWN := Client(Some(Presence(0, true)), Flag(0, false), false, false)
  const HIDING := Client(Some(Presence(1, false)), Flag(0, false), true, false)
  const HIDDEN := Client(Some(Presence(1, false)), Flag(1, true), false, false)
  const READ_SHOWN: map<Pid, Option<Presence>> := map[0 := Some(Presence(0, true))]

  const SWAPPED_EVENTS :=
    [TrySweep, ReadPresence(0, {}), SetPresence(0, false), RefreshFlag(0), ReadFlags(0, {}), WriteFlag(0, 0),
     EndSweep(0)]

  /** A sweep reads the old presence; the client hides; the sweep reads the new flag and reverts it. */
  function SwappedState(k: nat): State
  {
    if k == 0 then State(map[0 := SHOWN], false, [], {})
    else if k == 1 then State(map[0 := SHOWN], true, [Fresh], {})
    else if k == 2 then State(map[0 := SHOWN], true, [HasPresence(READ_SHOWN)], {})
    else if k == 3 then State(map[0 := HIDING], true, [HasPresence(READ_SHOWN)], {0})
    else if k == 4 then State(map[0 := HIDDEN], true, [HasPresence(READ_SHOWN)], {0})
    else if k == 5 then State(map[0 := HIDDEN], true, [Writing(map[0 := Flag(0, false)])], {0})
    else if k == 6 then State(map[0 := HIDDEN.(flag := Flag(0, false))], true, [Writing(map[])], {0})
    else State(map[0 := HIDDEN.(flag := Flag(0, false))], false, [], {0})
  }

  lemma SwappedSweepBegins(k: nat)
    requires k < 4
    ensures Enabled(PresenceFirst, SwappedState(k), SWAPPED_EVENTS[k])
    ensures SwappedState(k + 1) == Step(PresenceFirst, SwappedState(k), SWAPPED_EVENTS[k])
  {
    assert Refreshing(map[0 := SHOWN]) == {};
    assert PresencesOf(map[0 := SHOWN]) == READ_SHOWN;
    assert map[0 := SHOWN][0 := HIDING] == map[0 := HIDING];
    assert map[0 := HIDING][0 := HIDDEN] == map[0 := HIDDEN];
  }

  lemma SwappedSweepEnds(k: nat)
    requires 4 <= k < 7
    ensures Enabled(PresenceFirst, SwappedState(k), SWAPPED_EVENTS[k])
    ensures SwappedState(k + 1) == Step(PresenceFirst, SwappedState(k), SWAPPED_EVENTS[k])
  {
    assert FlagsOf(map[0 := HIDDEN]) == map[0 := Flag(1, true)];
    assert Transitions(map[0 := Flag(1, true)], READ_SHOWN, {}) == map[0 := Flag(0, false)];
    assert map[0 := Flag(0, false)] - {0} == map[];
    assert map[0 := HIDDEN][0 := HIDDEN.(flag := Flag(0, false))] == map[0 := HIDDEN.(flag := Flag(0, false))];
  }

  /** With the two reads swapped, one overlapping event suffices to leave a hidden client sized. */
  lemma SwappedReadsDisagree()
    ensures exists states: seq<State>, events: seq<Event> ::
      IsRun(PresenceFirst, states, events) && EndsWrong(states[|events|]) && !states[|events|].clients[0].failed
  {
    var states := seq(8, (k: nat) => SwappedState(k));
    forall k | 0 <= k < |SWAPPED_EVENTS|
      ensures Enabled(PresenceFirst, states[k], SWAPPED_EVENTS[k])
      ensures states[k + 1] == Step(PresenceFirst, states[k], SWAPPED_EVENTS[k])
    {
      hide Step, Enabled, SwappedState;
      if k < 4 { SwappedSweepBegins(k); } else { SwappedSweepEnds(k); }
    }
    hide Step, Enabled;
    assert IsRun(PresenceFirst, states, SWAPPED_EVENTS);
  }

  const STALE := Client(Some(Presence(1, false)), Flag(0, false), false, true)
  const SHOWING := Client(Some(Presence(2, true)), Flag(0, false), true, true)
  const BACK := Client(Some(Presence(2, true)), Flag(2, false), false, true)

  const FAILED_EVENTS :=
    [SetPresence(0, false), RefreshFails(0), TrySweep, ReadFlags(0, {}), ReadPresence(0, {}), SetPresence(0, true),
     RefreshFlag(0), WriteFlag(0, 0), EndSweep(0)]

  /** The write of a hiding client fails; a sweep decides to repair it; the client shows again, and the
      late repair hides it. */
  function FailedState(k: nat): State
  {
    if k == 0 then State(map[0 := SHOWN], false, [], {})
    else if k == 1 then State(map[0 := HIDING], false, [], {0})
    else if k == 2 then State(map[0 := STALE], false, [], {0})
    else if k == 3 then State(map[0 := STALE], true, [Fresh], {})
    else if k == 4 then State(map[0 := STALE], true, [HasFlags(map[0 := Flag(0, false)])], {})
    else if k == 5 then State(map[0 := STALE], true, [Writing(map[0 := Flag(1, true)])], {})
    else if k == 6 then State(map[0 := SHOWING], true, [Writing(map[0 := Flag(1, true)])], {0})
    else if k == 7 then State(map[0 := BACK], true, [Writing(map[0 := Flag(1, true)])], {0})
    else if k == 8 then State(map[0 := BACK.(flag := Flag(1, true))], true, [Writing(map[])], {0})
    else State(map[0 := BACK.(flag := Flag(1, true))], false, [], {0})
  }

  lemma FailedSweepBegins(k: nat)
    requires k < 5
    ensures Enabled(FlagsFirst, FailedState(k), FAILED_EVENTS[k])
    ensures FailedState(k + 1) == Step(FlagsFirst, FailedState(k), FAILED_EVENTS[k])
  {
    assert Refreshing(map[0 := STALE]) == {};
    assert FlagsOf(map[0 := STALE]) == map[0 := Flag(0, false)];
    assert Transitions(map[0 := Flag(0, false)], PresencesOf(map[0 := STALE]), {}) == map[0 := Flag(1, true)];
    assert map[0 := SHOWN][0 := HIDING] == map[0 := HIDING];
    assert map[0 := HIDING][0 := STALE] == map[0 := STALE];
  }

  lemma FailedSweepEnds(k: nat)
    requires 5 <= k < 9
    ensures Enabled(FlagsFirst, FailedState(k), FAILED_EVENTS[k])
    ensures FailedState(k + 1) == Step(FlagsFirst, FailedState(k), FAILED_EVENTS[k])
  {
    assert map[0 := Flag(1, true)] - {0} == map[];
    assert map[0 := STALE][0 := SHOWING] == map[0 := SHOWING];
    assert map[0 := SHOWING][0 := BACK] == map[0 := BACK];
    assert map[0 := BACK][0 := BACK.(flag := Flag(1, true))] == map[0 := BACK.(flag := Flag(1, true))];
  }

  /** After an event that could not write tmux even the source's order can revert a later event that
      could: the exclusion of failed clients is needed. */
  lemma FailedRefreshCanRevert()
    ensures exists states: seq<State>, events: seq<Event> ::
      IsRun(FlagsFirst, states, events) && EndsWrong(states[|events|])
  {
    var states := seq(10, (k: nat) => FailedState(k));
    forall k | 0 <= k < |FAILED_EVENTS|
      ensures Enabled(FlagsFirst, states[k], FAILED_EVENTS[k])
      ensures states[k + 1] == Step(FlagsFirst, states[k], FAILED_EVENTS[k])
    {
      hide Step, Enabled, FailedState;
      if k < 5 { FailedSweepBegins(k); } else { FailedSweepEnds(k); }
    }
    hide Step, Enabled;
    assert IsRun(FlagsFirst, states, FAILED_EVENTS);
  }

  const HIDDEN_THEN_SHOWING := Client(Some(Presence(2, true)), Flag(1, true), true, false)
  const SHOWN_AGAIN := Client(Some(Presence(2, true)), Flag(2, false), false, false)

  const TWICE_EVENTS :=
    [TrySweep, SetPresence(0, false), ReadFlags(0, {}), ReadPresence(0, {}), RefreshFlag(0), SetPresence(0, true),
     RefreshFlag(0), WriteFlag(0, 0), EndSweep(0)]

  /** A client hides and shows again during one sweep, which repeats the first decision last. */
  function TwiceState(k: nat): State
  {
    if k == 0 then State(map[0 := SHOWN], false, [], {})
    else if k == 1 then State(map[0 := SHOWN], true, [Fresh], {})
    else if k == 2 then State(map[0 := HIDING], true, [Fresh], {0})
    else if k == 3 then State(map[0 := HIDING], true, [HasFlags(map[0 := Flag(0, false)])], {0})
    else if k == 4 then State(map[0 := HIDING], true, [Writing(map[0 := Flag(1, true)])], {0})
    else if k == 5 then State(map[0 := HIDDEN], true, [Writing(map[0 := Flag(1, true)])], {0})
    else if k == 6 then State(map[0 := HIDDEN_THEN_SHOWING], true, [Writing(map[0 := Flag(1, true)])], {0})
    else if k == 7 then State(map[0 := SHOWN_AGAIN], true, [Writing(map[0 := Flag(1, true)])], {0})
    else if k == 8 then State(map[0 := SHOWN_AGAIN.(flag := Flag(1, true))], true, [Writing(map[])], {0})
    else State(map[0 := SHOWN_AGAIN.(flag := Flag(1, true))], false, [], {0})
  }

  lemma TwiceBegins(k: nat)
    requires k < 4
    ensures Enabled(FlagsFirst, TwiceState(k), TWICE_EVENTS[k])
    ensures TwiceState(k + 1) == Step(FlagsFirst, TwiceState(k), TWICE_EVENTS[k])
  {
    assert Refreshing(map[0 := SHOWN]) == {};
    assert FlagsOf(map[0 := HIDING]) == map[0 := Flag(0, false)];
    assert Transitions(map[0 := Flag(0, false)], PresencesOf(map[0 := HIDING]), {}) == map[0 := Flag(1, true)];
    assert map[0 := SHOWN][0 := HIDING] == map[0 := HIDING];
  }

  lemma TwiceEnds(k: nat)
    requires 4 <= k < 9
    ensures Enabled(FlagsFirst, TwiceState(k), TWICE_EVENTS[k])
    ensures TwiceState(k + 1) == Step(FlagsFirst, TwiceState(k), TWICE_EVENTS[k])
  {
    assert map[0 := Flag(1, true)] - {0} == map[];
    assert map[0 := HIDING][0 := HIDDEN] == map[0 := HIDDEN];
    assert map[0 := HIDDEN][0 := HIDDEN_THEN_SHOWING] == map[0 := HIDDEN_THEN_SHOWING];
    assert map[0 := HIDDEN_THEN_SHOWING][0 := SHOWN_AGAIN] == map[0 := SHOWN_AGAIN];
    var reverted := SHOWN_AGAIN.(flag := Flag(1, true));
    assert map[0 := SHOWN_AGAIN][0 := reverted] == map[0 := reverted];
  }

  /** Two events of one client inside a sweep suffice to leave a wrong flag, with no write failing: the
      bound of one is needed. */
  lemma TwoEventsDisagree()
    ensures exists states: seq<State>, events: seq<Event> ::
      && IsTrace(FlagsFirst, states, events) && Start(states[0])
      && EndsWrong(states[|events|]) && !states[|events|].clients[0].failed
  {
    var states := seq(10, (k: nat) => TwiceState(k));
    forall k | 0 <= k < |TWICE_EVENTS|
      ensures Enabled(FlagsFirst, states[k], TWICE_EVENTS[k])
      ensures states[k + 1] == Step(FlagsFirst, states[k], TWICE_EVENTS[k])
    {
      hide Step, Enabled, TwiceState;
      if k < 4 { TwiceBegins(k); } else { TwiceEnds(k); }
    }
    hide Step, Enabled;
    assert IsTrace(FlagsFirst, states, TWICE_EVENTS);
  }

  // ---------- Repair ----------

  predicate IsSweepEvent(e: Event)
  {
    !e.SetPresence? && !e.RefreshFlag? && !e.RefreshFails? && !e.TrySweep? && !e.ListFails?
  }

  /** During an undisturbed sweep every client not in its remaining transitions agrees already, except
      those whose write was skipped. */
  ghost predicate Repairing(s: State, skipped: set<Pid>)
  {
    && s.running && |s.sweeps| == 1
    && (forall pid :: pid in s.clients ==> NotAhead(s.clients[pid]) && !s.clients[pid].refreshing)
    && match s.sweeps[0]
       case Fresh => true
       case HasPresence(_) => false
       case HasFlags(flags) => flags == FlagsOf(s.clients)
       case Writing(todo) => forall pid :: pid in s.clients && pid !in skipped ==> Repaired(s.clients[pid], pid, todo)
  }

  ghost predicate Repaired(c: Client, pid: Pid, todo: map<Pid, Flag>)
  {
    c.presence.Some? ==> if pid in todo then todo[pid] == Decision(c.presence.value) else Agrees(c)
  }

  /** A state in which only the skipped clients may disagree; with none skipped, and earlier failures
      forgotten, a run may start from it. */
  ghost predicate AllRepaired(s: State, skipped: set<Pid>)
  {
    && !s.running && s.sweeps == []
    && forall pid :: pid in s.clients ==>
      !s.clients[pid].refreshing && (pid !in skipped ==> Agrees(s.clients[pid]) && NotAhead(s.clients[pid]))
  }

  function Forgiven(s: State): State
  {
    s.(clients := map pid | pid in s.clients :: s.clients[pid].(failed := false))
  }

  lemma RepairedCanStart(s: State)
    requires AllRepaired(s, {})
    ensures Start(Forgiven(s))
  {}

  lemma RepairingKept(s: State, e: Event, skipped: set<Pid>)
    requires Repairing(s, skipped) && IsSweepEvent(e) && Enabled(FlagsFirst, s, e)
    requires e.SkipWrite? ==> e.pid in skipped
    requires e.WriteFlag? ==> e.pid !in skipped
    ensures var t := Step(FlagsFirst, s, e);
      if e.EndSweep? then AllRepaired(t, skipped) else Repairing(t, skipped)
  {}

  /** Whatever the flags were and whatever failed before, a sweep that no event overlaps makes every
      client agree whose write it does not skip. */
  lemma {:induction false} UndisturbedSweepRepairs(states: seq<State>, events: seq<Event>, skipped: set<Pid>)
    requires IsTrace(FlagsFirst, states, events) && events != []
    requires forall i :: 0 <= i < |events| ==> IsSweepEvent(events[i])
    requires forall i :: 0 <= i < |events| && events[i].SkipWrite? ==> events[i].pid in skipped
    requires forall i :: 0 <= i < |events| && events[i].WriteFlag? ==> events[i].pid !in skipped
    requires forall i :: 0 <= i < |events| - 1 ==> !events[i].EndSweep?
    requires events[|events| - 1].EndSweep? && Repairing(states[0], skipped)
    ensures AllRepaired(states[|events|], skipped)
  {
    TraceStep(FlagsFirst, states, events, 0);
    hide Step, Enabled, Repairing, AllRepaired;
    RepairingKept(states[0], events[0], skipped);
    if |events| > 1 {
      UndisturbedSweepRepairs(states[1..], events[1..], skipped);
    }
  }
}
