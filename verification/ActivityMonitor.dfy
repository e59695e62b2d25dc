/** The CLI activity monitor: per-workspace buckets derived from pane observations and hook reports. */
module ActivityMonitor {
  import opened Text

  type Workspace = nat

  const ACTIVE_WINDOW_SECS := 5
  const DETACH_SETTLE_SECS := 5

  datatype Activity = Idle | Running | Attention

  datatype Observation = Observation(claudeLike: bool, lastActivity: int, attached: bool)

  /** A fresh hook report: the bucket it implies and its sequence stamp. */
  datatype Report = Report(bucket: Activity, stamp: int)

  datatype HookView = HookView(bucket: Activity, acked: bool)

  function NextState(prev: Activity, obs: Observation, ranWhileDetached: bool, now: int,
                     hook: Option<HookView>): Activity
  {
    if !obs.claudeLike then Idle
    else if hook.Some? then
      if hook.value.bucket.Attention? && (obs.attached || hook.value.acked) then Idle else hook.value.bucket
    else if now - obs.lastActivity <= ACTIVE_WINDOW_SECS then Running
    else match prev
      case Running => if !obs.attached && ranWhileDetached then Attention else Idle
      case Attention => if obs.attached then Idle else Attention
      case Idle => Idle
  }

  predicate MissingToIdle(complete: bool, observed: bool, prev: Activity)
  {
    complete && !observed && prev != Idle
  }

  // ---------- One workspace ----------

  /** What the monitor holds about one workspace. */
  datatype Watch = Watch(state: Activity, detachedSince: Option<int>, acked: Option<int>)

  /** What one tick learns about one workspace: the observation if its session was seen, the stored
      row if the table could be read, and whether a write would succeed. */
  datatype Input = Input(obs: Option<Observation>, complete: bool, now: int,
                         readOk: bool, row: Activity, stored: Option<Report>, writeOk: bool)

  function Prev(m: Watch, i: Input): Activity { if i.readOk then i.row else m.state }

  function ReportOf(i: Input): Option<Report> { if i.readOk then i.stored else None }

  function DetachedSince(m: Watch, obs: Observation, now: int): Option<int>
  {
    if obs.attached then None else if m.detachedSince.Some? then m.detachedSince else Some(now)
  }

  function Acked(m: Watch, obs: Observation, report: Option<Report>): Option<int>
  {
    if report.Some? && obs.attached then Some(report.value.stamp) else m.acked
  }

  /** The bucket an observed workspace moves to. */
  function Next(m: Watch, i: Input): Activity
    requires i.obs.Some?
  {
    var obs, report := i.obs.value, ReportOf(i);
    var since := DetachedSince(m, obs, i.now);
    var ran := since.Some? && obs.lastActivity >= since.value + DETACH_SETTLE_SECS;
    var acked := Acked(m, obs, report);
    var hook :=
      if report.None? then None
      else Some(HookView(report.value.bucket, acked.Some? && report.value.stamp <= acked.value));
    NextState(Prev(m, i), obs, ran, i.now, hook)
  }

  /** A transition counts only if its write succeeds. */
  function Record(prev: Activity, next: Activity, writeOk: bool): Activity
  {
    if next != prev && writeOk then next else prev
  }

  function Observe(m: Watch, i: Input): Watch
  {
    match i.obs
    case Some(obs) =>
      Watch(Record(Prev(m, i), Next(m, i), i.writeOk), DetachedSince(m, obs, i.now), Acked(m, obs, ReportOf(i)))
    case None =>
      m.(state := if MissingToIdle(i.complete, false, Prev(m, i)) then Record(Prev(m, i), Idle, i.writeOk)
                  else Prev(m, i))
  }

  // ---------- The monitor loop ----------

  datatype Row = Row(state: Activity, report: Option<Report>)

  datatype Snapshot = Snapshot(observations: map<Workspace, Observation>, complete: bool, now: int,
                               rows: Option<map<Workspace, Row>>, unwritable: set<Workspace>)

  function InputFor(s: Snapshot, ws: Workspace): Input
  {
    Input(
      if ws in s.observations then Some(s.observations[ws]) else None,
      s.complete, s.now,
      s.rows.Some?,
      if s.rows.Some? && ws in s.rows.value then s.rows.value[ws].state else Idle,
      if s.rows.Some? && ws in s.rows.value then s.rows.value[ws].report else None,
      ws !in s.unwritable)
  }

  function Get<T>(m: map<Workspace, T>, ws: Workspace): Option<T> { if ws in m then Some(m[ws]) else None }

  class Monitor {
    var states: map<Workspace, Activity>
    var detachedSince: map<Workspace, int>
    var hookAcked: map<Workspace, int>

    function StateOf(ws: Workspace): Activity
      reads this
    {
      if ws in states then states[ws] else Idle
    }

    function View(ws: Workspace): Watch
      reads this
    {
      Watch(StateOf(ws), Get(detachedSince, ws), Get(hookAcked, ws))
    }

    constructor ()
      ensures forall ws :: View(ws) == Watch(Idle, None, None)
    {
      states, detachedSince, hookAcked := map[], map[], map[];
    }

    method Write(ws: Workspace, state: Activity, ok: bool)
      modifies this`states
      ensures StateOf(ws) == if ok then state else old(StateOf(ws))
      ensures forall other :: other != ws ==> StateOf(other) == old(StateOf(other))
      ensures states.Keys <= old(states.Keys) + {ws}
    {
      if ok { states := states[ws := state]; }
    }

    method TrackDetached(ws: Workspace, obs: Observation, now: int)
      modifies this`detachedSince
      ensures Get(detachedSince, ws) ==
              if obs.attached then None
              else if ws in old(detachedSince) then Some(old(detachedSince)[ws])
              else Some(now)
      ensures forall other :: other != ws ==> Get(detachedSince, other) == Get(old(detachedSince), other)
    {
      if obs.attached {
        detachedSince := detachedSince - {ws};
      } else if ws !in detachedSince {
        detachedSince := detachedSince[ws := now];
      }
    }

    /** Having the pane open acknowledges everything reported so far. */
    method ViewReport(ws: Workspace, obs: Observation, report: Option<Report>) returns (hook: Option<HookView>)
      modifies this`hookAcked
      ensures Get(hookAcked, ws) ==
              if report.Some? && obs.attached then Some(report.value.stamp) else Get(old(hookAcked), ws)
      ensures forall other :: other != ws ==> Get(hookAcked, other) == Get(old(hookAcked), other)
      ensures hook == if report.None? then None
                      else Some(HookView(report.value.bucket, ws in hookAcked && report.value.stamp <= hookAcked[ws]))
    {
      if report.None? { return None; }
      if obs.attached {
        hookAcked := hookAcked[ws := report.value.stamp];
      }
      return Some(HookView(report.value.bucket, ws in hookAcked && report.value.stamp <= hookAcked[ws]));
    }

    /** Run the state machine for one observed workspace. */
    method Visit(ws: Workspace, s: Snapshot, ghost before: Watch)
      requires ws in s.observations
      requires before.detachedSince == Get(detachedSince, ws) && before.acked == Get(hookAcked, ws)
      requires StateOf(ws) == Prev(before, InputFor(s, ws))
      modifies this
      ensures View(ws) == Observe(before, InputFor(s, ws))
      ensures forall other :: other != ws ==> View(other) == old(View(other))
    {
      hide NextState;
      var obs := s.observations[ws];
      var prev := StateOf(ws);
      TrackDetached(ws, obs, s.now);
      var ran := ws in detachedSince && obs.lastActivity >= detachedSince[ws] + DETACH_SETTLE_SECS;
      var report := ReportOf(InputFor(s, ws));
      var hook := ViewReport(ws, obs, report);
      var next := NextState(prev, obs, ran, s.now, hook);
      assert next == Next(before, InputFor(s, ws));
      if next != prev {
        Write(ws, next, ws !in s.unwritable);
      }
    }

    /** One tick: the same step for every workspace, in whatever order the tables are walked. */
    method Tick(s: Snapshot)
      modifies this
      ensures forall ws :: View(ws) == Observe(old(View(ws)), InputFor(s, ws))
    {
      hide Observe, NextState, InputFor;
      ghost var before := imap ws: Workspace :: View(ws);
      ReadRows(s);
      VisitAll(s, before);
      CollapseMissing(s);
      forall ws ensures View(ws) == Observe(before[ws], InputFor(s, ws)) {
        if ws !in s.observations { UnobservedStep(before[ws], s, ws); }
      }
    }

    /** The buckets are read back from the table; an unreadable table keeps the known ones. */
    method ReadRows(s: Snapshot)
      modifies this`states
      ensures forall ws :: View(ws) == old(View(ws)).(state := Prev(old(View(ws)), InputFor(s, ws)))
    {
      if s.rows.Some? {
        states := map ws | ws in s.rows.value :: s.rows.value[ws].state;
      }
    }

    method VisitAll(s: Snapshot, ghost before: imap<Workspace, Watch>)
      requires forall ws :: ws in before && View(ws) == before[ws].(state := Prev(before[ws], InputFor(s, ws)))
      modifies this
      ensures forall ws ::
                View(ws) == if ws in s.observations then Observe(before[ws], InputFor(s, ws)) else old(View(ws))
    {
      hide Observe, NextState, InputFor, Prev;
      var todo := s.observations.Keys;
      while todo != {}
        invariant todo <= s.observations.Keys
        invariant forall ws ::
                    View(ws) ==
                    if ws in s.observations && ws !in todo then Observe(before[ws], InputFor(s, ws)) else old(View(ws))
        decreases |todo|
      {
        var ws :| ws in todo;
        assert View(ws) == old(View(ws)) == before[ws].(state := Prev(before[ws], InputFor(s, ws)));
        Visit(ws, s, before[ws]);
        todo := todo - {ws};
      }
    }

    /** Known workspaces whose session vanished go back to idle. */
    method CollapseMissing(s: Snapshot)
      modifies this`states
      ensures forall ws :: StateOf(ws) ==
                if MissingToIdle(s.complete, ws in s.observations, old(StateOf(ws))) && ws !in s.unwritable
                then Idle else old(StateOf(ws))
    {
      var gone := set ws | ws in states && MissingToIdle(s.complete, ws in s.observations, states[ws]);
      ghost var missing := gone;
      while gone != {}
        invariant gone <= missing
        invariant forall ws ::
                    StateOf(ws) == if ws in missing - gone && ws !in s.unwritable then Idle else old(StateOf(ws))
        decreases |gone|
      {
        var ws :| ws in gone;
        Write(ws, Idle, ws !in s.unwritable);
        gone := gone - {ws};
      }
    }
  }

  lemma UnobservedStep(m: Watch, s: Snapshot, ws: Workspace)
    requires ws !in s.observations
    ensures var prev := Prev(m, InputFor(s, ws));
      Observe(m, InputFor(s, ws)) ==
      m.(state := if MissingToIdle(s.complete, false, prev) && ws !in s.unwritable then Idle else prev)
  {}
}
