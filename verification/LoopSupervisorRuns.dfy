/** The supervisor's guarantees over whole runs: conservation, bounded sends, dedupe and healing. */
module LoopSupervisorRuns {
  import opened Text
  import opened ResetClock
  import opened LoopSupervisor
  import opened LoopSupervisorProofs
  import opened SupervisorLoop
  import ResetClockProofs

  // ---------- Duplicates ----------

  lemma AttemptDelivers(db: Db, w: Wakeup, io: DeliveryIo, id: WakeupId)
    requires io.repark.latest.Some? ==> io.repark.latest.value in db.sessions
    ensures var (tried, finishing) := Attempt(db, w, io);
      && MarkFailures(tried.history, id) == MarkFailures(db.history, id)
      && Deliveries(tried.history, id) <= Deliveries(db.history, id) + (if finishing && id == w.id then 1 else 0)
  {
    hide Decide, HasParked, Repark, Deliveries, MarkFailures;
    var v := Decide(db, w, io);
    var h := db.history;
    if v.Send? {
      var sent := Sent(w.id, w.workspace, w.kind, v.prompt);
      CountsAfter(h, sent, w.workspace, id);
      CountsAfter(h + [sent], IncrementFailed(w.workspace), w.workspace, id);
    } else if v.Park? {
      ReparkFacts(db, w, v.prompt, io.repark);
      var (outcome, db') := Repark(db, w, v.prompt, io.repark);
      match outcome
      case Reparked => CountsAfter(h, db'.history[|h|], w.workspace, id);
      case NoSession => CountsAfter(h, db'.history[|h|], w.workspace, id);
      case AlreadyParked =>
      case Failed =>
    }
  }

  lemma DeliverBounded(s: State, e: Event)
    requires Enabled(s, e) && e.DeliverNext?
    requires RowsKeyed(s.db) && DueMatches(s.db, s.phase.due) && DeliveriesBounded(s.db, s.phase.due)
    ensures DeliveriesBounded(Step(s, e).db, DueOf(Step(s, e).phase))
  {
    hide DeliverOne, Attempt, Deliveries, MarkFailures;
    var db, due, w := s.db, s.phase.due, s.phase.due[0];
    var (tried, finishing) := Attempt(db, w, e.io);
    DeliverIsAttemptThenFinish(db, w, e.io);
    AttemptFacts(db, w, e.io);
    var db', due' := Step(s, e).db, DueOf(Step(s, e).phase);
    forall id: WakeupId
      ensures Deliveries(db'.history, id) <= MarkFailures(db'.history, id) + 1
      ensures MayDeliver(db', due', id) ==> Deliveries(db'.history, id) <= MarkFailures(db'.history, id)
    {
      AttemptDelivers(db, w, e.io, id);
      CountsAfter(tried.history, MarkFailed(w.id), w.workspace, id);
      assert due[0].id == w.id;
      assert MayDeliver(db, due, w.id);
      assert MayDeliver(db', due', id) && id != w.id ==> MayDeliver(db, due, id);
    }
  }

  lemma NothingMoreToDeliver(s: State, e: Event, id: WakeupId)
    requires Enabled(s, e) && !e.DeliverNext? && RowsKeyed(s.db)
    ensures MayDeliver(Step(s, e).db, DueOf(Step(s, e).phase), id) ==> MayDeliver(s.db, DueOf(s.phase), id)
  {
    hide SignalToSchedule, FireAt, HasPending;
  }

  lemma OtherEventsDeliverNothing(s: State, e: Event, id: WakeupId)
    requires Enabled(s, e) && !e.DeliverNext?
    ensures Deliveries(Step(s, e).db.history, id) == Deliveries(s.db.history, id)
    ensures MarkFailures(Step(s, e).db.history, id) == MarkFailures(s.db.history, id)
  {
    hide SignalToSchedule, FireAt, HasPending, Deliveries, MarkFailures;
    var h, h' := s.db.history, Step(s, e).db.history;
    if |h'| > |h| { CountsAfter(h, h'[|h|], 0, id); }
  }

  lemma DeliveriesKept(s: State, e: Event)
    requires Enabled(s, e) && RowsKeyed(s.db) && DueMatches(s.db, DueOf(s.phase))
    requires DeliveriesBounded(s.db, DueOf(s.phase))
    ensures DeliveriesBounded(Step(s, e).db, DueOf(Step(s, e).phase))
  {
    if e.DeliverNext? {
      DeliverBounded(s, e);
    } else {
      hide Step, Enabled, Deliveries, MarkFailures, RowsKeyed, DueMatches, MayDeliver;
      var db', due' := Step(s, e).db, DueOf(Step(s, e).phase);
      forall id: WakeupId
        ensures Deliveries(db'.history, id) <= MarkFailures(db'.history, id) + 1
        ensures MayDeliver(db', due', id) ==> Deliveries(db'.history, id) <= MarkFailures(db'.history, id)
      {
        OtherEventsDeliverNothing(s, e, id);
        NothingMoreToDeliver(s, e, id);
      }
    }
  }

  // ---------- Why each effect happened ----------

  /** The circumstances in which an effect may be recorded by step `e` from state `s`. */
  ghost predicate Justified(s: State, e: Event, effect: Effect)
  {
    match effect
    case Sent(id, ws, kind, prompt) =>
      && e.DeliverNext? && e.io.sessionAlive
      && NothingParked(s.db, ws) && ws !in s.db.carrying
      && (kind != Manual ==>
        && IsRetry(kind)
        && e.io.pane.Some? && ShowsKind(e.io.pane.value, kind, e.io.now, e.io.localOffset)
        && ws in s.db.policies && s.db.policies[ws].enabled && !CapReached(s.db.policies[ws]))
    case Parked(id, ws, sid, prompt) =>
      e.DeliverNext? && NothingParked(s.db, ws) && sid in s.db.sessions && s.db.sessions[sid].workspace == ws
    case NoSessionRow(id, ws) =>
      e.DeliverNext? && forall sid :: sid in s.db.sessions ==> s.db.sessions[sid].workspace != ws
    case MarkFailed(_) => e.DeliverNext? && !e.io.markOk
    case IncrementFailed(_) => e.DeliverNext? && e.io.sendOk && !e.io.incrementOk
    case PolicySaved(ws, enabled, cleared) =>
      e.SavePolicy? && e.workspace == ws && e.enabled == enabled && cleared == (!enabled && e.deleteOk)
    case Cancelled(id) => e == DeleteWakeup(id)
    case AttachDelivered(sid, prompt) =>
      e.AttachDone? && e.delivered && e.workspace in s.db.carrying && s.db.carrying[e.workspace] == Carry(sid, prompt)
  }

  ghost predicate AllJustified(s: State, e: Event, from: nat, h: seq<Effect>)
  {
    forall i :: from <= i < |h| ==> Justified(s, e, h[i])
  }

  lemma SendDecided(s: State, e: Event)
    requires Enabled(s, e) && e.DeliverNext? && Decide(s.db, s.phase.due[0], e.io).Send?
    ensures var w := s.phase.due[0];
      && Justified(s, e, Sent(w.id, w.workspace, w.kind, Decide(s.db, w, e.io).prompt))
      && (IsLimit(w) && !e.io.incrementOk ==> Justified(s, e, IncrementFailed(w.workspace)))
      && (IsLimit(w) ==> w.workspace in s.db.policies)
  {
    NothingParkedIff(s.db, s.phase.due[0].workspace);
    hide HasParked, NothingParked, DetectLimit;
  }

  lemma AttemptJustified(s: State, e: Event)
    requires Enabled(s, e) && e.DeliverNext?
    ensures s.db.history <= Attempt(s.db, s.phase.due[0], e.io).0.history
    ensures AllJustified(s, e, |s.db.history|, Attempt(s.db, s.phase.due[0], e.io).0.history)
  {
    var w := s.phase.due[0];
    NothingParkedIff(s.db, w.workspace);
    hide Decide, Repark, HasParked, NothingParked, ShowsKind;
    var v := Decide(s.db, w, e.io);
    if v.Send? {
      SendDecided(s, e);
    } else if v.Park? {
      ReparkFacts(s.db, w, v.prompt, e.io.repark);
      match Repark(s.db, w, v.prompt, e.io.repark).0
      case Reparked =>
      case NoSession =>
      case AlreadyParked =>
      case Failed =>
    }
  }

  lemma StepJustified(s: State, e: Event)
    requires Enabled(s, e)
    ensures s.db.history <= Step(s, e).db.history
    ensures AllJustified(s, e, |s.db.history|, Step(s, e).db.history)
  {
    hide DeliverOne, Attempt, SignalToSchedule, FireAt, HasPending, NothingParked, ShowsKind;
    if e.DeliverNext? {
      DeliverIsAttemptThenFinish(s.db, s.phase.due[0], e.io);
      AttemptJustified(s, e);
    }
  }

  // ---------- Conservation of manual prompts ----------

  predicate CarriesPrompt(w: Wakeup, prompt: string) { w.prompt.Some? ==> prompt == w.prompt.value }

  /** The effects that settle a wake-up: its prompt reached the pane or a parking slot, or it was
      given up because the workspace has no session row, or the user withdrew it. */
  predicate Discharges(e: Effect, w: Wakeup)
  {
    match e
    case Sent(id, ws, _, prompt) => id == w.id && ws == w.workspace && CarriesPrompt(w, prompt)
    case Parked(id, ws, _, prompt) => id == w.id && ws == w.workspace && CarriesPrompt(w, prompt)
    case NoSessionRow(id, ws) => id == w.id && ws == w.workspace
    case Cancelled(id) => id == w.id
    case PolicySaved(ws, _, cleared) => ws == w.workspace && cleared
    case _ => false
  }

  ghost predicate Accounted(db: Db, w: Wakeup, from: nat)
  {
    || (w.id in db.wakeups && db.wakeups[w.id] == w)
    || exists i :: from <= i < |db.history| && Discharges(db.history[i], w)
  }

  lemma AttemptDischarges(db: Db, w: Wakeup, io: DeliveryIo)
    requires io.repark.latest.Some? ==> io.repark.latest.value in db.sessions
    requires !IsLimit(w) && Attempt(db, w, io).1
    ensures var h := Attempt(db, w, io).0.history;
      |h| > |db.history| && Discharges(h[|db.history|], w)
  {
    hide HasParked, DetectLimit, Repark;
    var v := Decide(db, w, io);
    if v.Park? {
      ReparkFacts(db, w, v.prompt, io.repark);
      match Repark(db, w, v.prompt, io.repark).0
      case Reparked =>
      case NoSession =>
      case AlreadyParked =>
      case Failed =>
    }
  }

  lemma DeliverAccounts(db: Db, due: seq<Wakeup>, io: DeliveryIo, w: Wakeup)
    requires io.repark.latest.Some? ==> io.repark.latest.value in db.sessions
    requires due != [] && RowsKeyed(db) && DueMatches(db, due)
    requires w.kind == Manual && w.id in db.wakeups && db.wakeups[w.id] == w
    ensures Accounted(DeliverOne(db, due[0], io).0, w, |db.history|)
  {
    hide DeliverOne, Attempt;
    var v := due[0];
    DeliverIsAttemptThenFinish(db, v, io);
    AttemptFacts(db, v, io);
    var (tried, finishing) := Attempt(db, v, io);
    if v.id == w.id && finishing {
      assert v == w;
      AttemptDischarges(db, w, io);
      assert DeliverOne(db, v, io).0.history[|db.history|] == tried.history[|db.history|];
    }
  }

  lemma StepAccounts(s: State, e: Event, w: Wakeup, from: nat)
    requires Enabled(s, e) && RowsKeyed(s.db) && DueMatches(s.db, DueOf(s.phase))
    requires w.kind == Manual && !w.fired && from <= |s.db.history| && Accounted(s.db, w, from)
    ensures Accounted(Step(s, e).db, w, from)
  {
    hide DeliverOne, SignalToSchedule, FireAt, HasPending, Discharges;
    StepJustified(s, e);
    var h, h' := s.db.history, Step(s, e).db.history;
    if exists i :: from <= i < |h| && Discharges(h[i], w) {
      var i :| from <= i < |h| && Discharges(h[i], w);
      assert h'[i] == h[i];
    } else {
      PendingAccounts(s, e, w);
    }
  }

  lemma PendingAccounts(s: State, e: Event, w: Wakeup)
    requires Enabled(s, e) && RowsKeyed(s.db) && DueMatches(s.db, DueOf(s.phase))
    requires w.kind == Manual && !w.fired && w.id in s.db.wakeups && s.db.wakeups[w.id] == w
    ensures Accounted(Step(s, e).db, w, |s.db.history|)
  {
    hide DeliverOne, SignalToSchedule, FireAt, HasPending;
    if e.DeliverNext? {
      DeliverAccounts(s.db, s.phase.due, e.io, w);
    } else if e.DeleteWakeup? || e.SavePolicy? {
      assert Step(s, e).db.history[|s.db.history|] ==
             if e.DeleteWakeup? then Cancelled(e.id) else PolicySaved(e.workspace, e.enabled, !e.enabled && e.deleteOk);
    }
  }

  // ---------- Whole runs ----------

  ghost predicate Inv(s: State)
  {
    && RowsKeyed(s.db) && DueMatches(s.db, DueOf(s.phase)) && OneRetryPerKind(s.db)
    && ParksSettled(s.db) && CarriesHeld(s.db) && AttemptsCounted(s.db)
    && DeliveriesBounded(s.db, DueOf(s.phase))
  }

  lemma InvKept(s: State, e: Event)
    requires Inv(s) && Enabled(s, e)
    ensures Inv(Step(s, e))
  {
    hide Step, RowsKeyed, DueMatches, OneRetryPerKind, ParksSettled, CarriesHeld, AttemptsCounted, DeliveriesBounded;
    RowsKept(s, e);
    DedupeKept(s, e);
    ParksKept(s, e);
    CarriesKept(s, e);
    AttemptsKept(s, e);
    DeliveriesKept(s, e);
  }

  /** Every reachable state satisfies the invariants. */
  lemma {:induction false} InvAlways(states: seq<State>, events: seq<Event>, k: nat)
    requires IsRun(states, events) && k < |states|
    ensures Inv(states[k])
  {
    if k > 0 {
      hide IsRun, Step, Enabled, Inv;
      RunLength(states, events);
      RunStep(states, events, k - 1);
      InvAlways(states, events, k - 1);
      InvKept(states[k - 1], events[k - 1]);
    }
  }

  lemma InvRows(states: seq<State>, events: seq<Event>, k: nat)
    requires IsRun(states, events) && k < |states|
    ensures RowsKeyed(states[k].db) && DueMatches(states[k].db, DueOf(states[k].phase))
  {
    hide IsRun, RowsKeyed, DueMatches, OneRetryPerKind, ParksSettled, CarriesHeld, AttemptsCounted, DeliveriesBounded;
    InvAlways(states, events, k);
  }

  lemma RunStep(states: seq<State>, events: seq<Event>, k: nat)
    requires IsRun(states, events) && k < |events|
    ensures |states| == |events| + 1
    ensures Enabled(states[k], events[k]) && states[k + 1] == Step(states[k], events[k])
  {
    hide Step, Enabled;
  }

  lemma StepGrows(s: State, e: Event)
    requires Enabled(s, e)
    ensures s.db.history <= Step(s, e).db.history
  {
    hide Step, Enabled;
    StepJustified(s, e);
  }

  /** The history only grows along a run. */
  lemma {:induction false} HistoryGrows(states: seq<State>, events: seq<Event>, i: nat, j: nat)
    requires IsRun(states, events) && i <= j < |states|
    ensures states[i].db.history <= states[j].db.history
  {
    hide IsRun, Step, Enabled;
    if i < j {
      HistoryGrows(states, events, i, j - 1);
      RunLength(states, events);
      RunStep(states, events, j - 1);
      StepGrows(states[j - 1], events[j - 1]);
    }
  }

  lemma EmptyStart(states: seq<State>, events: seq<Event>)
    requires IsRun(states, events)
    ensures states != [] && states[0].db.history == []
  {
    hide Step, Enabled;
  }

  lemma RunLength(states: seq<State>, events: seq<Event>)
    requires IsRun(states, events)
    ensures |states| == |events| + 1
  {}

  lemma HistoryLengthens(states: seq<State>, events: seq<Event>, i: nat, j: nat)
    requires IsRun(states, events) && i <= j < |states|
    ensures |states[i].db.history| <= |states[j].db.history|
  {
    hide IsRun;
    HistoryGrows(states, events, i, j);
  }

  lemma RunAccounts(states: seq<State>, events: seq<Event>, k: nat, w: Wakeup, from: nat)
    requires IsRun(states, events) && k + 1 < |states|
    requires w.kind == Manual && !w.fired && from <= |states[k].db.history| && Accounted(states[k].db, w, from)
    ensures Accounted(states[k + 1].db, w, from)
  {
    hide IsRun, Step, Enabled, Accounted, RowsKeyed, DueMatches;
    RunLength(states, events);
    RunStep(states, events, k);
    InvRows(states, events, k);
    StepAccounts(states[k], events[k], w, from);
  }

  lemma PendingIsAccounted(db: Db, w: Wakeup)
    requires w.id in db.wakeups && db.wakeups[w.id] == w
    ensures Accounted(db, w, |db.history|)
  {}

  /** A manual prompt pending at any moment of a run is, at every later moment, still pending, or
      since then typed, parked, given up for lack of a session row, or withdrawn by the user. */
  lemma {:induction false} ManualPromptsConserved(states: seq<State>, events: seq<Event>, i: nat, j: nat, w: Wakeup)
    requires IsRun(states, events) && i <= j < |states|
    requires w.kind == Manual && !w.fired && w.id in states[i].db.wakeups && states[i].db.wakeups[w.id] == w
    ensures Accounted(states[j].db, w, |states[i].db.history|)
    decreases j
  {
    hide IsRun, Accounted;
    if i == j {
      PendingIsAccounted(states[i].db, w);
    } else {
      ManualPromptsConserved(states, events, i, j - 1, w);
      HistoryLengthens(states, events, i, j - 1);
      RunAccounts(states, events, j - 1, w, |states[i].db.history|);
    }
  }

  /** In every reachable state a prompt a wake-up parked is still in its slot, or a terminal attach
      has delivered it since. */
  lemma ParkedPromptsConserved(states: seq<State>, events: seq<Event>, k: nat, i: nat)
    requires IsRun(states, events) && k < |states|
    requires i < |states[k].db.history| && states[k].db.history[i].Parked?
    ensures ParkSettled(states[k].db, i)
  {
    InvAlways(states, events, k);
  }

  /** A wake-up is delivered at most once more than its mark-fired write failed. */
  lemma DuplicatesNeedFailedMarks(states: seq<State>, events: seq<Event>, k: nat, id: WakeupId)
    requires IsRun(states, events) && k < |states|
    ensures Deliveries(states[k].db.history, id) <= MarkFailures(states[k].db.history, id) + 1
  {
    InvAlways(states, events, k);
  }

  /** In every reachable state each workspace has at most one unfired wake-up of each limit kind. */
  lemma RetriesDeduplicated(states: seq<State>, events: seq<Event>, k: nat, a: WakeupId, b: WakeupId)
    requires IsRun(states, events) && k < |states|
    requires var rows := states[k].db.wakeups;
      && a in rows && b in rows && !rows[a].fired && !rows[b].fired
      && rows[a].workspace == rows[b].workspace && rows[a].kind == rows[b].kind && IsRetry(rows[a].kind)
    ensures a == b
  {
    InvAlways(states, events, k);
    var db := states[k].db;
    assert IsPending(db, a, db.wakeups[a].workspace, db.wakeups[a].kind);
    assert IsPending(db, b, db.wakeups[a].workspace, db.wakeups[a].kind);
  }

  /** Limit sends to a capped workspace since its policy was saved never exceed the cap by more than
      the increments the database lost; with none lost they never exceed it. */
  lemma SendsBounded(states: seq<State>, events: seq<Event>, k: nat, ws: Workspace)
    requires IsRun(states, events) && k < |states|
    requires ws in states[k].db.policies && states[k].db.policies[ws].maxAttempts > 0
    ensures LimitSends(states[k].db.history, ws) <=
            states[k].db.policies[ws].maxAttempts + LostIncrements(states[k].db.history, ws)
    ensures LimitSends(states[k].db.history, ws) ==
            states[k].db.policies[ws].attemptsUsed + LostIncrements(states[k].db.history, ws)
  {
    hide IsRun;
    InvAlways(states, events, k);
  }

  /** Every recorded effect was recorded by some step of the run in which it was justified. */
  lemma {:induction false} EffectsJustified(states: seq<State>, events: seq<Event>, k: nat, i: nat)
    requires IsRun(states, events) && k < |states| && i < |states[k].db.history|
    ensures exists j :: 0 <= j < k && Justified(states[j], events[j], states[k].db.history[i])
  {
    hide IsRun, Step, Enabled, Justified;
    if k == 0 {
      EmptyStart(states, events);
    } else {
      RunLength(states, events);
      RunStep(states, events, k - 1);
      StepJustified(states[k - 1], events[k - 1]);
      if i < |states[k - 1].db.history| {
        EffectsJustified(states, events, k - 1, i);
        var j :| 0 <= j < k - 1 && Justified(states[j], events[j], states[k - 1].db.history[i]);
        assert Justified(states[j], events[j], states[k].db.history[i]);
      } else {
        assert Justified(states[k - 1], events[k - 1], states[k].db.history[i]);
      }
    }
  }

  // ---------- Healing ----------

  ghost predicate ExactlyOnePending(db: Db, ws: Workspace, kind: WakeupKind)
  {
    exists id :: IsPending(db, id, ws, kind) && forall other :: IsPending(db, other, ws, kind) ==> other == id
  }

  lemma {:induction false} DeliverAllKeepsRows(db: Db, due: seq<Wakeup>, ios: seq<DeliveryIo>)
    requires |ios| == |due| && LatestKnown(db, ios)
    requires RowsKeyed(db) && OneRetryPerKind(db)
    ensures RowsKeyed(DeliverAll(db, due, ios).0) && OneRetryPerKind(DeliverAll(db, due, ios).0)
    decreases |due|
  {
    if due != [] {
      hide DeliverOne, OneRetryPerKind;
      DeliverKeepsRows(db, due[0], ios[0]);
      DeliverKeepsSessions(db, due[0], ios[0]);
      DeliverShrinks(db, due[0], ios[0]);
      DedupeShrinks(db, DeliverOne(db, due[0], ios[0]).0);
      var (next, ok) := DeliverOne(db, due[0], ios[0]);
      if ok { DeliverAllKeepsRows(next, due[1..], ios[1..]); }
    }
  }

  /** Scheduling one policy adds at most one row, in the future, and leaves one pending if its
      workspace shows a limit. */
  lemma ScheduleOneHeals(db: Db, ws: Workspace, p: Policy, now: Instant, io: ScheduleIo)
    requires RowsKeyed(db) && OneRetryPerKind(db)
    ensures var (db', ok) := ScheduleOne(db, ws, p, now, io);
      && RowsKeyed(db') && OneRetryPerKind(db')
      && (forall id :: id in db.wakeups ==> id in db'.wakeups && db'.wakeups[id] == db.wakeups[id])
      && (forall id :: id in db'.wakeups && id !in db.wakeups ==> db'.wakeups[id].fireAt > now)
      && (io.countOk && io.create.Created? ==> ok)
      && (ok && SignalToSchedule(p, now, io).Some? ==> HasPending(db', ws, KindOf(SignalToSchedule(p, now, io).value)))
  {
    hide DetectLimit, FireAt, OneRetryPerKind;
    var signal := SignalToSchedule(p, now, io);
    if signal.Some? {
      if !HasPending(db, ws, KindOf(signal.value)) {
        DedupeInsert(db, ws, FireAt(signal.value, now, p.retrySecs), KindOf(signal.value), None);
      }
      ResetClockProofs.FireAtIsInTheFuture(io.pane.value, now, io.localOffset, p.retrySecs);
      var db' := ScheduleOne(db, ws, p, now, io).0;
      if db' != db {
        assert db.nextId !in db.wakeups;
        assert IsPending(db', db.nextId, ws, KindOf(signal.value));
      }
    }
  }

  lemma {:induction false} ScheduleAllHeals(db: Db, todo: seq<EnabledPolicy>, now: Instant, ios: seq<ScheduleIo>)
    requires |ios| == |todo| && RowsKeyed(db) && OneRetryPerKind(db)
    requires forall i :: 0 <= i < |ios| ==> ios[i].countOk && ios[i].create.Created?
    ensures var (db', ok) := ScheduleAll(db, todo, now, ios);
      && ok && RowsKeyed(db') && OneRetryPerKind(db')
      && (forall id :: id in db.wakeups ==> id in db'.wakeups && db'.wakeups[id] == db.wakeups[id])
      && (forall id :: id in db'.wakeups && id !in db.wakeups ==> db'.wakeups[id].fireAt > now)
      && forall i :: 0 <= i < |todo| && SignalToSchedule(todo[i].policy, now, ios[i]).Some? ==>
        HasPending(db', todo[i].workspace, KindOf(SignalToSchedule(todo[i].policy, now, ios[i]).value))
    decreases |todo|
  {
    if todo != [] {
      hide ScheduleOne, SignalToSchedule, RowsKeyed, OneRetryPerKind;
      ScheduleOneHeals(db, todo[0].workspace, todo[0].policy, now, ios[0]);
      var next := ScheduleOne(db, todo[0].workspace, todo[0].policy, now, ios[0]).0;
      ScheduleAllHeals(next, todo[1..], now, ios[1..]);
      var db' := ScheduleAll(db, todo, now, ios).0;
      forall i | 0 <= i < |todo| && SignalToSchedule(todo[i].policy, now, ios[i]).Some?
        ensures HasPending(db', todo[i].workspace, KindOf(SignalToSchedule(todo[i].policy, now, ios[i]).value))
      {
        if i > 0 { assert todo[i] == todo[1..][i - 1] && ios[i] == ios[1..][i - 1]; }
      }
    }
  }

  /** A tick whose scheduling queries succeed leaves exactly one pending wake-up for every enabled,
      uncapped workspace whose live pane shows a limit, whatever delivery just did; new wake-ups are
      in the future. */
  lemma TickHeals(db: Db, due: seq<Wakeup>, deliveries: seq<DeliveryIo>, todo: seq<EnabledPolicy>,
                  now: Instant, ios: seq<ScheduleIo>)
    requires RowsKeyed(db) && OneRetryPerKind(db)
    requires |deliveries| == |due| && LatestKnown(db, deliveries) && DeliverAll(db, due, deliveries).1
    requires IsEnabledList(DeliverAll(db, due, deliveries).0, todo)
    requires |ios| == |todo| && forall i :: 0 <= i < |ios| ==> ios[i].countOk && ios[i].create.Created?
    ensures var delivered := DeliverAll(db, due, deliveries).0;
      var (healed, ok) := ScheduleAll(delivered, todo, now, ios);
      && ok
      && (forall id :: id in healed.wakeups && id !in delivered.wakeups ==> healed.wakeups[id].fireAt > now)
      && forall i :: 0 <= i < |todo| && SignalToSchedule(todo[i].policy, now, ios[i]).Some? ==>
        ExactlyOnePending(healed, todo[i].workspace, KindOf(SignalToSchedule(todo[i].policy, now, ios[i]).value))
  {
    hide SignalToSchedule, DeliverAll, ScheduleAll;
    DeliverAllKeepsRows(db, due, deliveries);
    var delivered := DeliverAll(db, due, deliveries).0;
    ScheduleAllHeals(delivered, todo, now, ios);
    var healed := ScheduleAll(delivered, todo, now, ios).0;
    forall i | 0 <= i < |todo| && SignalToSchedule(todo[i].policy, now, ios[i]).Some?
      ensures ExactlyOnePending(healed, todo[i].workspace, KindOf(SignalToSchedule(todo[i].policy, now, ios[i]).value))
    {
      OnlyOnePending(healed, todo[i].workspace, SignalToSchedule(todo[i].policy, now, ios[i]).value);
    }
  }

  lemma OnlyOnePending(db: Db, ws: Workspace, signal: LimitSignal)
    requires OneRetryPerKind(db) && HasPending(db, ws, KindOf(signal))
    ensures ExactlyOnePending(db, ws, KindOf(signal))
  {
    hide IsPending;
    var kind := KindOf(signal);
    var id :| id in db.wakeups && IsPending(db, id, ws, kind);
  }

  lemma InvDedupe(states: seq<State>, events: seq<Event>, k: nat)
    requires IsRun(states, events) && k < |states|
    ensures RowsKeyed(states[k].db) && OneRetryPerKind(states[k].db)
  {
    hide IsRun, RowsKeyed, DueMatches, OneRetryPerKind, ParksSettled, CarriesHeld, AttemptsCounted, DeliveriesBounded;
    InvAlways(states, events, k);
  }

  lemma ScheduleStep(s: State, e: Event)
    requires Enabled(s, e) && e.ScheduleNext?
    ensures s.phase.Scheduling? && s.phase.todo != []
    ensures var head := s.phase.todo[0];
      var (db, ok) := ScheduleOne(s.db, head.workspace, head.policy, s.phase.now, e.scheduleIo);
      Step(s, e) == State(db, if ok then Scheduling(s.phase.todo[1..], s.phase.now) else Idle)
  {
    hide ScheduleOne;
  }

  /** In any run, whatever happened before and happens around it, a scheduling step whose queries
      succeed leaves exactly one pending wake-up if its workspace shows a limit, in the future if new. */
  lemma RunHeals(states: seq<State>, events: seq<Event>, k: nat)
    requires IsRun(states, events) && k < |events| && events[k].ScheduleNext?
    requires events[k].scheduleIo.countOk && events[k].scheduleIo.create.Created?
    ensures states[k].phase.Scheduling? && states[k].phase.todo != []
    ensures var head, now := states[k].phase.todo[0], states[k].phase.now;
      var signal := SignalToSchedule(head.policy, now, events[k].scheduleIo);
      && (signal.Some? ==> ExactlyOnePending(states[k + 1].db, head.workspace, KindOf(signal.value)))
      && forall id :: id in states[k + 1].db.wakeups && id !in states[k].db.wakeups ==>
        states[k + 1].db.wakeups[id].fireAt > now
  {
    hide IsRun, Step, Enabled, ScheduleOne, SignalToSchedule, RowsKeyed, OneRetryPerKind, HasPending, ExactlyOnePending;
    RunStep(states, events, k);
    InvDedupe(states, events, k);
    var s, e := states[k], events[k];
    ScheduleStep(s, e);
    var head := s.phase.todo[0];
    ScheduleOneHeals(s.db, head.workspace, head.policy, s.phase.now, e.scheduleIo);
    var signal := SignalToSchedule(head.policy, s.phase.now, e.scheduleIo);
    if signal.Some? { OnlyOnePending(states[k + 1].db, head.workspace, signal.value); }
  }

  // ---------- The loops are runs of the machine ----------

  ghost predicate Reaches(s: State, events: seq<Event>, t: State)
    decreases |events|
  {
    if events == [] then s == t else Enabled(s, events[0]) && Reaches(Step(s, events[0]), events[1..], t)
  }

  ghost predicate LatestsHonest(db: Db, due: seq<Wakeup>, ios: seq<DeliveryIo>)
  {
    |ios| == |due| && forall i :: 0 <= i < |due| ==> LatestIsHonest(db, due[i].workspace, ios[i].repark.latest)
  }

  lemma HonestyKept(db: Db, db': Db, due: seq<Wakeup>, ios: seq<DeliveryIo>)
    requires SlotsKept(db, db') && LatestsHonest(db, due, ios)
    ensures LatestsHonest(db', due, ios)
  {}

  /** The delivery loop is the machine's delivery steps, ending idle exactly when a mark fails. */
  lemma {:induction false} DeliveryLoopIsSteps(db: Db, due: seq<Wakeup>, ios: seq<DeliveryIo>, now: Instant,
                                               events: seq<Event>)
    requires |events| == |due| == |ios|
    requires forall i :: 0 <= i < |due| ==> events[i] == DeliverNext(ios[i])
    requires LatestKnown(db, ios) && LatestsHonest(db, due, ios)
    ensures var (db', ok) := DeliverAll(db, due, ios);
      exists n :: 0 <= n <= |due| &&
        Reaches(State(db, Delivering(due, now)), events[..n], State(db', if ok then Delivering([], now) else Idle))
    decreases |due|
  {
    hide DeliverOne;
    var s := State(db, Delivering(due, now));
    var (db', ok) := DeliverAll(db, due, ios);
    var t := State(db', if ok then Delivering([], now) else Idle);
    if due == [] {
      assert Reaches(s, events[..0], t);
    } else {
      var (next, going) := DeliverOne(db, due[0], ios[0]);
      DeliverKeepsSessions(db, due[0], ios[0]);
      DeliverKeepsRows(db, due[0], ios[0]);
      HonestyKept(db, next, due, ios);
      if going {
        DeliveryLoopIsSteps(next, due[1..], ios[1..], now, events[1..]);
        var n :| 0 <= n <= |due| - 1 && Reaches(Step(s, events[0]), events[1..][..n], t);
        assert events[..n + 1][1..] == events[1..][..n];
        assert Reaches(s, events[..n + 1], t);
      } else {
        assert Reaches(Step(s, events[0]), [], t);
        assert events[..1][1..] == [];
        assert Reaches(s, events[..1], t);
      }
    }
  }

  /** The scheduling loop is the machine's scheduling steps, ending idle exactly when a query fails. */
  lemma {:induction false} SchedulingLoopIsSteps(db: Db, todo: seq<EnabledPolicy>, ios: seq<ScheduleIo>,
                                                 now: Instant, events: seq<Event>)
    requires |events| == |todo| == |ios|
    requires forall i :: 0 <= i < |todo| ==> events[i] == ScheduleNext(ios[i])
    ensures var (db', ok) := ScheduleAll(db, todo, now, ios);
      exists n :: 0 <= n <= |todo| &&
        Reaches(State(db, Scheduling(todo, now)), events[..n], State(db', if ok then Scheduling([], now) else Idle))
    decreases |todo|
  {
    hide ScheduleOne;
    var s := State(db, Scheduling(todo, now));
    var (db', ok) := ScheduleAll(db, todo, now, ios);
    var t := State(db', if ok then Scheduling([], now) else Idle);
    if todo == [] {
      assert Reaches(s, events[..0], t);
    } else {
      ScheduleStep(s, events[0]);
      hide Step;
      var (next, going) := ScheduleOne(db, todo[0].workspace, todo[0].policy, now, ios[0]);
      if going {
        SchedulingLoopIsSteps(next, todo[1..], ios[1..], now, events[1..]);
        var n :| 0 <= n <= |todo| - 1 && Reaches(Step(s, events[0]), events[1..][..n], t);
        assert events[..n + 1][1..] == events[1..][..n];
        assert Reaches(s, events[..n + 1], t);
      } else {
        assert Reaches(Step(s, events[0]), [], t);
        assert events[..1][1..] == [];
        assert Reaches(s, events[..1], t);
      }
    }
  }
}
