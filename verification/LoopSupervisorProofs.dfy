/** What the supervisor keeps over every run of the system. */
module LoopSupervisorProofs {
  import opened Text
  import opened ResetClock
  import opened LoopSupervisor

  // ---------- Invariants ----------

  ghost predicate RowsKeyed(db: Db)
  {
    forall id :: id in db.wakeups ==> db.wakeups[id].id == id && id < db.nextId
  }

  /** The wake-ups still to deliver in this tick. */
  function DueOf(phase: Phase): seq<Wakeup> { if phase.Delivering? then phase.due else [] }

  /** A listed wake-up is still its unfired row, unless the row has been deleted since. */
  ghost predicate DueMatches(db: Db, due: seq<Wakeup>)
  {
    && (forall i :: 0 <= i < |due| ==> !due[i].fired && due[i].id < db.nextId)
    && (forall i :: 0 <= i < |due| && due[i].id in db.wakeups ==> db.wakeups[due[i].id] == due[i])
    && (forall i, j :: 0 <= i < j < |due| ==> due[i].id != due[j].id)
  }

  /** At most one unfired wake-up per workspace and limit kind. */
  ghost predicate OneRetryPerKind(db: Db)
  {
    forall ws, kind, i, j :: IsRetry(kind) && IsPending(db, i, ws, kind) && IsPending(db, j, ws, kind) ==> i == j
  }

  /** The parked prompt at position `i` of the history is still in its slot, or was delivered since. */
  ghost predicate ParkSettled(db: Db, i: int)
    requires 0 <= i < |db.history| && db.history[i].Parked?
  {
    var e := db.history[i];
    || (e.session in db.sessions && db.sessions[e.session].pending == Some(e.prompt))
    || exists j :: i < j < |db.history| && db.history[j] == AttachDelivered(e.session, e.prompt)
  }

  ghost predicate ParksSettled(db: Db)
  {
    forall i :: 0 <= i < |db.history| && db.history[i].Parked? ==> ParkSettled(db, i)
  }

  /** What an attach carries is still in the slot it was read from. */
  ghost predicate CarriesHeld(db: Db)
  {
    forall ws :: ws in db.carrying ==>
      && db.carrying[ws].session in db.sessions
      && db.sessions[db.carrying[ws].session] == SessionRow(ws, Some(db.carrying[ws].prompt))
  }

  /** Direct limit sends to a workspace since its policy was last saved. */
  function LimitSends(h: seq<Effect>, ws: Workspace): nat
  {
    if h == [] then 0
    else
      var rest, e := h[..|h| - 1], h[|h| - 1];
      if e.PolicySaved? && e.workspace == ws then 0
      else LimitSends(rest, ws) + if e.Sent? && e.workspace == ws && e.kind != Manual then 1 else 0
  }

  /** Attempt increments lost to database errors since the policy was last saved. */
  function LostIncrements(h: seq<Effect>, ws: Workspace): nat
  {
    if h == [] then 0
    else
      var rest, e := h[..|h| - 1], h[|h| - 1];
      if e.PolicySaved? && e.workspace == ws then 0
      else LostIncrements(rest, ws) + if e == IncrementFailed(ws) then 1 else 0
  }

  /** The attempt counter is the sends minus the lost increments, and respects the cap. */
  ghost predicate AttemptsCounted(db: Db)
  {
    forall ws :: ws in db.policies ==>
      && LimitSends(db.history, ws) == db.policies[ws].attemptsUsed + LostIncrements(db.history, ws)
      && (db.policies[ws].maxAttempts > 0 ==> db.policies[ws].attemptsUsed <= db.policies[ws].maxAttempts)
  }

  /** Times a wake-up's prompt was typed into the pane or parked. */
  function Deliveries(h: seq<Effect>, id: WakeupId): nat
  {
    if h == [] then 0
    else
      var rest, e := h[..|h| - 1], h[|h| - 1];
      Deliveries(rest, id) + if (e.Sent? || e.Parked?) && e.id == id then 1 else 0
  }

  function MarkFailures(h: seq<Effect>, id: WakeupId): nat
  {
    if h == [] then 0
    else
      var rest, e := h[..|h| - 1], h[|h| - 1];
      MarkFailures(rest, id) + if e == MarkFailed(id) then 1 else 0
  }

  ghost predicate MayDeliver(db: Db, due: seq<Wakeup>, id: WakeupId)
  {
    || (id in db.wakeups && !db.wakeups[id].fired)
    || (exists i :: 0 <= i < |due| && due[i].id == id)
    || id >= db.nextId
  }

  /** Each wake-up is delivered at most once more than its mark-fired write failed, and no more than
      that while it can still be delivered. */
  ghost predicate DeliveriesBounded(db: Db, due: seq<Wakeup>)
  {
    forall id: WakeupId ::
      && Deliveries(db.history, id) <= MarkFailures(db.history, id) + 1
      && (MayDeliver(db, due, id) ==> Deliveries(db.history, id) <= MarkFailures(db.history, id))
  }

  // ---------- The history only grows ----------

  lemma CountsAfter(h: seq<Effect>, e: Effect, ws: Workspace, id: WakeupId)
    ensures LimitSends(h + [e], ws) ==
            if e.PolicySaved? && e.workspace == ws then 0
            else LimitSends(h, ws) + if e.Sent? && e.workspace == ws && e.kind != Manual then 1 else 0
    ensures LostIncrements(h + [e], ws) ==
            if e.PolicySaved? && e.workspace == ws then 0
            else LostIncrements(h, ws) + if e == IncrementFailed(ws) then 1 else 0
    ensures Deliveries(h + [e], id) == Deliveries(h, id) + if (e.Sent? || e.Parked?) && e.id == id then 1 else 0
    ensures MarkFailures(h + [e], id) == MarkFailures(h, id) + if e == MarkFailed(id) then 1 else 0
  {
    assert (h + [e])[..|h + [e]| - 1] == h;
  }

  /** No session of the workspace holds a prompt. */
  ghost predicate NothingParked(db: Db, ws: Workspace)
  {
    forall sid :: sid in db.sessions && db.sessions[sid].workspace == ws ==> db.sessions[sid].pending.None?
  }

  lemma NothingParkedIff(db: Db, ws: Workspace)
    ensures NothingParked(db, ws) <==> !HasParked(db, ws)
  {}

  /** No slot that holds a prompt is ever overwritten. */
  ghost predicate SlotsKept(db: Db, db': Db)
  {
    && db'.sessions.Keys == db.sessions.Keys
    && forall sid :: sid in db.sessions ==>
      && db'.sessions[sid].workspace == db.sessions[sid].workspace
      && (db.sessions[sid].pending.Some? ==> db'.sessions[sid] == db.sessions[sid])
  }

  lemma ReparkFacts(db: Db, w: Wakeup, prompt: string, io: ReparkIo)
    requires io.latest.Some? ==> io.latest.value in db.sessions
    ensures var (outcome, db') := Repark(db, w, prompt, io);
      && db'.wakeups == db.wakeups && db'.policies == db.policies
      && db'.carrying == db.carrying && db'.nextId == db.nextId
      && SlotsKept(db, db')
      && (outcome.Reparked? ==>
            && io.latest.Some? && db'.sessions[io.latest.value].pending == Some(prompt)
            && db'.history == db.history + [Parked(w.id, w.workspace, io.latest.value, prompt)]
            && !HasParked(db, w.workspace))
      && (outcome.NoSession? ==> io.latest.None? && db'.history == db.history + [NoSessionRow(w.id, w.workspace)])
      && (outcome.AlreadyParked? || outcome.Failed? ==> db'.history == db.history)
  {
    hide HasParked;
  }

  /** The part of a delivery before the wake-up is marked fired, and whether it gets that far. */
  function Attempt(db: Db, w: Wakeup, io: DeliveryIo): (Db, bool)
    requires io.repark.latest.Some? ==> io.repark.latest.value in db.sessions
  {
    match Decide(db, w, io)
    case Drop => (db, true)
    case Wait => (db, false)
    case Send(prompt) => (AfterSend(db, w, prompt, io.incrementOk), true)
    case Park(prompt) =>
      var (outcome, parked) := Repark(db, w, prompt, io.repark);
      (parked, !StaysPending(outcome, IsLimit(w)))
  }

  lemma DeliverIsAttemptThenFinish(db: Db, w: Wakeup, io: DeliveryIo)
    requires io.repark.latest.Some? ==> io.repark.latest.value in db.sessions
    ensures var (tried, finishing) := Attempt(db, w, io);
      DeliverOne(db, w, io) == if finishing then Finish(tried, w.id, io.markOk) else (tried, true)
  {
    hide Decide, Repark, AfterSend;
  }

  lemma AttemptFacts(db: Db, w: Wakeup, io: DeliveryIo)
    requires io.repark.latest.Some? ==> io.repark.latest.value in db.sessions
    ensures var (tried, finishing) := Attempt(db, w, io);
      && tried.wakeups == db.wakeups && tried.carrying == db.carrying && tried.nextId == db.nextId
      && SlotsKept(db, tried)
      && db.history <= tried.history
      && (!finishing ==> tried.history == db.history && tried.policies == db.policies)
  {
    hide Decide, Repark;
    var v := Decide(db, w, io);
    if v.Park? {
      ReparkFacts(db, w, v.prompt, io.repark);
      match Repark(db, w, v.prompt, io.repark).0
      case Reparked =>
      case NoSession =>
      case AlreadyParked =>
      case Failed =>
    }
  }

  // ---------- Keys and lists ----------

  lemma DeliverKeepsRows(db: Db, w: Wakeup, io: DeliveryIo)
    requires io.repark.latest.Some? ==> io.repark.latest.value in db.sessions
    ensures var db' := DeliverOne(db, w, io).0;
      && db'.nextId == db.nextId && db'.carrying == db.carrying
      && SlotsKept(db, db')
      && db.history <= db'.history
      && (db'.wakeups == db.wakeups || db'.wakeups == MarkFired(db, w.id).wakeups)
  {
    hide DeliverOne, Attempt;
    DeliverIsAttemptThenFinish(db, w, io);
    AttemptFacts(db, w, io);
  }

  lemma RowsKept(s: State, e: Event)
    requires Enabled(s, e) && RowsKeyed(s.db) && DueMatches(s.db, DueOf(s.phase))
    ensures RowsKeyed(Step(s, e).db) && DueMatches(Step(s, e).db, DueOf(Step(s, e).phase))
  {
    hide DeliverOne, SignalToSchedule, FireAt, HasPending, FinishAttach, SavePolicyIn, HasSession;
    if e.DeliverNext? {
      DeliverKeepsRows(s.db, s.phase.due[0], e.io);
    } else if e.AttachDone? {
      AttachKeepsRows(s.db, e.workspace, e.delivered);
    } else if e.SavePolicy? {
      SavingKeepsRows(s.db, e.workspace, Policy(e.enabled, e.retrySecs, e.continuation, e.maxAttempts, 0), e.deleteOk);
    }
  }

  lemma AttachKeepsRows(db: Db, ws: Workspace, delivered: bool)
    requires ws in db.carrying
    ensures var db' := FinishAttach(db, ws, delivered); db'.wakeups == db.wakeups && db'.nextId == db.nextId
  {}

  lemma SavingKeepsRows(db: Db, ws: Workspace, p: Policy, deleteOk: bool)
    ensures var db' := SavePolicyIn(db, ws, p, deleteOk);
      && db'.nextId == db.nextId
      && forall id :: id in db'.wakeups ==> id in db.wakeups && db'.wakeups[id] == db.wakeups[id]
  {}

  // ---------- Dedupe ----------

  /** Nothing becomes pending. */
  ghost predicate PendingShrinks(db: Db, db': Db)
  {
    forall ws, kind, i :: IsPending(db', i, ws, kind) ==> IsPending(db, i, ws, kind)
  }

  lemma DedupeShrinks(db: Db, db': Db)
    requires OneRetryPerKind(db) && PendingShrinks(db, db')
    ensures OneRetryPerKind(db')
  {
    hide IsPending;
  }

  lemma DeliverShrinks(db: Db, w: Wakeup, io: DeliveryIo)
    requires io.repark.latest.Some? ==> io.repark.latest.value in db.sessions
    ensures PendingShrinks(db, DeliverOne(db, w, io).0)
  {
    hide DeliverOne;
    DeliverKeepsRows(db, w, io);
  }

  lemma DedupeInsert(db: Db, ws: Workspace, fireAt: Instant, kind: WakeupKind, prompt: Option<string>)
    requires RowsKeyed(db) && OneRetryPerKind(db)
    requires IsRetry(kind) ==> !HasPending(db, ws, kind)
    ensures OneRetryPerKind(Insert(db, ws, fireAt, kind, prompt))
  {
    var db' := Insert(db, ws, fireAt, kind, prompt);
    assert db.nextId !in db.wakeups;
    forall ws', kind', i, j | IsRetry(kind') && IsPending(db', i, ws', kind') && IsPending(db', j, ws', kind')
      ensures i == j
    {
      assert i != db.nextId ==> IsPending(db, i, ws', kind');
      assert j != db.nextId ==> IsPending(db, j, ws', kind');
    }
  }

  lemma DedupeKept(s: State, e: Event)
    requires Enabled(s, e) && RowsKeyed(s.db) && OneRetryPerKind(s.db)
    ensures OneRetryPerKind(Step(s, e).db)
  {
    hide DeliverOne, SignalToSchedule, FireAt, HasPending, OneRetryPerKind, Insert;
    var db, db' := s.db, Step(s, e).db;
    if e.DeliverNext? {
      DeliverShrinks(db, s.phase.due[0], e.io);
      DedupeShrinks(db, db');
    } else if e.ScheduleNext? {
      var head := s.phase.todo[0];
      var signal := SignalToSchedule(head.policy, s.phase.now, e.scheduleIo);
      if signal.Some? && !HasPending(db, head.workspace, KindOf(signal.value)) {
        var fireAt := FireAt(signal.value, s.phase.now, head.policy.retrySecs);
        DedupeInsert(db, head.workspace, fireAt, KindOf(signal.value), None);
      }
    } else if e.CreateManual? {
      DedupeInsert(db, e.workspace, e.fireAt, Manual, e.prompt);
    } else if e.CreateUnknown? {
      DedupeInsert(db, e.workspace, e.fireAt, Unknown, e.prompt);
    } else {
      DedupeShrinks(db, db');
    }
  }

  // ---------- Parked prompts ----------

  /** Every prompt parked after `db` is in its slot in `db'`. */
  ghost predicate NewParksHeld(db: Db, db': Db)
  {
    && db.history <= db'.history
    && forall i :: |db.history| <= i < |db'.history| && db'.history[i].Parked? ==>
      && db'.history[i].session in db'.sessions
      && db'.sessions[db'.history[i].session].pending == Some(db'.history[i].prompt)
  }

  lemma SettledAfter(db: Db, db': Db)
    requires ParksSettled(db) && NewParksHeld(db, db')
    requires forall sid :: sid in db.sessions && db.sessions[sid].pending.Some? ==>
               sid in db'.sessions && db'.sessions[sid] == db.sessions[sid]
    ensures ParksSettled(db')
  {
    forall i | 0 <= i < |db'.history| && db'.history[i].Parked? ensures ParkSettled(db', i) {
      if i < |db.history| {
        assert db.history[i] == db'.history[i];
        assert ParkSettled(db, i);
        var e := db.history[i];
        if exists j :: i < j < |db.history| && db.history[j] == AttachDelivered(e.session, e.prompt) {
          var j :| i < j < |db.history| && db.history[j] == AttachDelivered(e.session, e.prompt);
          assert db'.history[j] == db.history[j];
        }
      }
    }
  }

  lemma AttemptParksHeld(db: Db, w: Wakeup, io: DeliveryIo)
    requires io.repark.latest.Some? ==> io.repark.latest.value in db.sessions
    ensures NewParksHeld(db, Attempt(db, w, io).0)
  {
    hide Decide, Repark, HasParked;
    var v := Decide(db, w, io);
    if v.Park? {
      ReparkFacts(db, w, v.prompt, io.repark);
      match Repark(db, w, v.prompt, io.repark).0
      case Reparked =>
      case NoSession =>
      case AlreadyParked =>
      case Failed =>
    }
  }

  lemma DeliverParksHeld(db: Db, w: Wakeup, io: DeliveryIo)
    requires io.repark.latest.Some? ==> io.repark.latest.value in db.sessions
    ensures NewParksHeld(db, DeliverOne(db, w, io).0)
  {
    hide DeliverOne, Attempt;
    DeliverIsAttemptThenFinish(db, w, io);
    AttemptParksHeld(db, w, io);
    var (tried, finishing) := Attempt(db, w, io);
    var db' := DeliverOne(db, w, io).0;
    assert tried.history <= db'.history && db'.sessions == tried.sessions;
    assert forall i :: |tried.history| <= i < |db'.history| ==> db'.history[i] == MarkFailed(w.id);
  }

  lemma AttachSettles(db: Db, ws: Workspace, delivered: bool)
    requires ws in db.carrying && ParksSettled(db)
    ensures ParksSettled(FinishAttach(db, ws, delivered))
  {
    var db' := FinishAttach(db, ws, delivered);
    forall i | 0 <= i < |db'.history| && db'.history[i].Parked? ensures ParkSettled(db', i) {
      var e := db'.history[i];
      assert i < |db.history| && db.history[i] == e;
      assert ParkSettled(db, i);
      if exists j :: i < j < |db.history| && db.history[j] == AttachDelivered(e.session, e.prompt) {
        var j :| i < j < |db.history| && db.history[j] == AttachDelivered(e.session, e.prompt);
        assert db'.history[j] == db.history[j];
      } else if delivered && db.carrying[ws] == Carry(e.session, e.prompt) {
        assert db'.history[|db.history|] == AttachDelivered(e.session, e.prompt);
      }
    }
  }

  lemma ParksKept(s: State, e: Event)
    requires Enabled(s, e) && ParksSettled(s.db)
    ensures ParksSettled(Step(s, e).db)
  {
    hide DeliverOne, SignalToSchedule, FireAt, HasPending, ParksSettled, FinishAttach;
    var db' := Step(s, e).db;
    if e.DeliverNext? {
      DeliverKeepsRows(s.db, s.phase.due[0], e.io);
      DeliverParksHeld(s.db, s.phase.due[0], e.io);
      SettledAfter(s.db, db');
    } else if e.AttachDone? {
      AttachSettles(s.db, e.workspace, e.delivered);
    } else {
      SettledAfter(s.db, db');
    }
  }

  lemma CarriesKept(s: State, e: Event)
    requires Enabled(s, e) && CarriesHeld(s.db)
    ensures CarriesHeld(Step(s, e).db)
  {
    hide DeliverOne, SignalToSchedule, FireAt, HasPending;
    if e.DeliverNext? {
      DeliverKeepsRows(s.db, s.phase.due[0], e.io);
    }
  }

  // ---------- Attempts ----------

  lemma MarkFailedCountsNothing(h: seq<Effect>, failed: WakeupId, ws: Workspace)
    ensures LimitSends(h + [MarkFailed(failed)], ws) == LimitSends(h, ws)
    ensures LostIncrements(h + [MarkFailed(failed)], ws) == LostIncrements(h, ws)
  {
    CountsAfter(h, MarkFailed(failed), ws, 0);
  }

  lemma SendCounted(db: Db, w: Wakeup, prompt: string, incrementOk: bool, ws: Workspace)
    requires IsLimit(w) ==> w.workspace in db.policies
    ensures var sent := AfterSend(db, w, prompt, incrementOk);
      && sent.policies.Keys == db.policies.Keys
      && (ws in db.policies ==>
        && sent.policies[ws].maxAttempts == db.policies[ws].maxAttempts
        && sent.policies[ws].attemptsUsed ==
           db.policies[ws].attemptsUsed + (if IsLimit(w) && incrementOk && ws == w.workspace then 1 else 0)
        && LimitSends(sent.history, ws) - LostIncrements(sent.history, ws) - sent.policies[ws].attemptsUsed ==
           LimitSends(db.history, ws) - LostIncrements(db.history, ws) - db.policies[ws].attemptsUsed)
  {
    var h1 := db.history + [Sent(w.id, w.workspace, w.kind, prompt)];
    CountsAfter(db.history, Sent(w.id, w.workspace, w.kind, prompt), ws, 0);
    CountsAfter(h1, IncrementFailed(w.workspace), ws, 0);
  }

  lemma AttemptCounted(db: Db, w: Wakeup, io: DeliveryIo)
    requires io.repark.latest.Some? ==> io.repark.latest.value in db.sessions
    requires AttemptsCounted(db)
    ensures AttemptsCounted(Attempt(db, w, io).0)
  {
    hide HasParked, DetectLimit, Repark, AfterSend, LimitSends, LostIncrements;
    var v := Decide(db, w, io);
    var tried := Attempt(db, w, io).0;
    forall ws | ws in tried.policies
      ensures LimitSends(tried.history, ws) == tried.policies[ws].attemptsUsed + LostIncrements(tried.history, ws)
      ensures tried.policies[ws].maxAttempts > 0 ==> tried.policies[ws].attemptsUsed <= tried.policies[ws].maxAttempts
    {
      if v.Send? {
        SendCounted(db, w, v.prompt, io.incrementOk, ws);
      } else if v.Park? {
        ReparkFacts(db, w, v.prompt, io.repark);
        var (outcome, db') := Repark(db, w, v.prompt, io.repark);
        match outcome
        case Reparked => CountsAfter(db.history, db'.history[|db.history|], ws, 0);
        case NoSession => CountsAfter(db.history, db'.history[|db.history|], ws, 0);
        case AlreadyParked =>
        case Failed =>
      }
    }
  }

  lemma DeliveryCounted(db: Db, w: Wakeup, io: DeliveryIo)
    requires io.repark.latest.Some? ==> io.repark.latest.value in db.sessions
    requires AttemptsCounted(db)
    ensures AttemptsCounted(DeliverOne(db, w, io).0)
  {
    hide DeliverOne, Attempt, LimitSends, LostIncrements;
    DeliverIsAttemptThenFinish(db, w, io);
    AttemptCounted(db, w, io);
    var tried := Attempt(db, w, io).0;
    forall ws { MarkFailedCountsNothing(tried.history, w.id, ws); }
  }

  lemma AttemptsKept(s: State, e: Event)
    requires Enabled(s, e) && AttemptsCounted(s.db)
    ensures AttemptsCounted(Step(s, e).db)
  {
    hide DeliverOne, Attempt, SignalToSchedule, FireAt, HasPending, LimitSends, LostIncrements;
    hide HasSession, IsDueList, IsEnabledList;
    var db, db' := s.db, Step(s, e).db;
    if e.DeliverNext? {
      DeliveryCounted(db, s.phase.due[0], e.io);
    } else if e.SavePolicy? || e.DeleteWakeup? || (e.AttachDone? && e.delivered) {
      var effect :=
        if e.SavePolicy? then PolicySaved(e.workspace, e.enabled, !e.enabled && e.deleteOk)
        else if e.DeleteWakeup? then Cancelled(e.id)
        else AttachDelivered(db.carrying[e.workspace].session, db.carrying[e.workspace].prompt);
      assert db'.history == db.history + [effect];
      forall ws | ws in db'.policies
        ensures LimitSends(db'.history, ws) == db'.policies[ws].attemptsUsed + LostIncrements(db'.history, ws)
      {
        CountsAfter(db.history, effect, ws, 0);
      }
    }
  }
}
