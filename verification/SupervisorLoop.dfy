/** The delivery and scheduling loops as the supervisor runs them, over rows it updates in place. */
module SupervisorLoop {
  import opened Text
  import opened ResetClock
  import opened LoopSupervisor

  /** Delivery of a whole due list: each wake-up in turn until one cannot be marked fired. */
  function DeliverAll(db: Db, due: seq<Wakeup>, ios: seq<DeliveryIo>): (Db, bool)
    requires |ios| == |due|
    requires LatestKnown(db, ios)
    decreases |due|
  {
    if due == [] then (db, true)
    else
      var (next, ok) := DeliverOne(db, due[0], ios[0]);
      DeliverKeepsSessions(db, due[0], ios[0]);
      if ok then DeliverAll(next, due[1..], ios[1..]) else (next, false)
  }

  ghost predicate LatestKnown(db: Db, ios: seq<DeliveryIo>)
  {
    forall i :: 0 <= i < |ios| && ios[i].repark.latest.Some? ==> ios[i].repark.latest.value in db.sessions
  }

  lemma ReparkKeepsSessions(db: Db, w: Wakeup, prompt: string, io: ReparkIo)
    requires io.latest.Some? ==> io.latest.value in db.sessions
    ensures Repark(db, w, prompt, io).1.sessions.Keys == db.sessions.Keys
  {
    hide HasParked;
  }

  lemma DeliverKeepsSessions(db: Db, w: Wakeup, io: DeliveryIo)
    requires io.repark.latest.Some? ==> io.repark.latest.value in db.sessions
    ensures DeliverOne(db, w, io).0.sessions.Keys == db.sessions.Keys
  {
    hide Decide, Repark;
    if Decide(db, w, io).Park? {
      ReparkKeepsSessions(db, w, Decide(db, w, io).prompt, io.repark);
    }
  }

  /** Scheduling of every enabled policy in turn, until a query fails. */
  function ScheduleAll(db: Db, todo: seq<EnabledPolicy>, now: Instant, ios: seq<ScheduleIo>): (Db, bool)
    requires |ios| == |todo|
    decreases |todo|
  {
    if todo == [] then (db, true)
    else
      var (next, ok) := ScheduleOne(db, todo[0].workspace, todo[0].policy, now, ios[0]);
      if ok then ScheduleAll(next, todo[1..], now, ios[1..]) else (next, false)
  }

  class Supervisor {
    var wakeups: map<WakeupId, Wakeup>
    var policies: map<Workspace, Policy>
    var sessions: map<SessionId, SessionRow>
    var carrying: map<Workspace, Carry>
    var nextId: nat
    var history: seq<Effect>

    function Contents(): Db
      reads this
    {
      Db(wakeups, policies, sessions, carrying, nextId, history)
    }

    constructor ()
      ensures Contents() == EMPTY
    {
      wakeups, policies, sessions, carrying := map[], map[], map[], map[];
      nextId, history := 0, [];
    }

    method Mark(id: WakeupId, markOk: bool) returns (ok: bool)
      modifies this`wakeups, this`history
      ensures (Contents(), ok) == Finish(old(Contents()), id, markOk)
    {
      if !markOk {
        history := history + [MarkFailed(id)];
        return false;
      }
      if id in wakeups {
        wakeups := wakeups[id := wakeups[id].(fired := true)];
      }
      return true;
    }

    method ReparkPrompt(w: Wakeup, prompt: string, io: ReparkIo) returns (outcome: ReparkOutcome)
      requires io.latest.Some? ==> io.latest.value in sessions
      modifies this`sessions, this`history
      ensures (outcome, Contents()) == Repark(old(Contents()), w, prompt, io)
    {
      if !io.peekOk { return Failed; }
      if HasParked(Contents(), w.workspace) { return AlreadyParked; }
      if !io.findOk { return Failed; }
      if io.latest.None? {
        history := history + [NoSessionRow(w.id, w.workspace)];
        return NoSession;
      }
      var sid := io.latest.value;
      // another writer may fill the slot between the check and the write
      if io.racer.Some? && sessions[sid].pending.None? {
        sessions := sessions[sid := sessions[sid].(pending := io.racer)];
      }
      if !io.writeOk { return Failed; }
      if sessions[sid].pending.Some? { return AlreadyParked; }
      sessions := sessions[sid := sessions[sid].(pending := Some(prompt))];
      history := history + [Parked(w.id, w.workspace, sid, prompt)];
      return Reparked;
    }

    method RecordSend(w: Wakeup, prompt: string, incrementOk: bool)
      modifies this`policies, this`history
      ensures Contents() == AfterSend(old(Contents()), w, prompt, incrementOk)
    {
      history := history + [Sent(w.id, w.workspace, w.kind, prompt)];
      if IsLimit(w) {
        if incrementOk && w.workspace in policies {
          var p := policies[w.workspace];
          policies := policies[w.workspace := p.(attemptsUsed := p.attemptsUsed + 1)];
        } else {
          history := history + [IncrementFailed(w.workspace)];
        }
      }
    }

    method DeliverWakeup(w: Wakeup, io: DeliveryIo) returns (ok: bool)
      requires io.repark.latest.Some? ==> io.repark.latest.value in sessions
      modifies this`wakeups, this`policies, this`sessions, this`history
      ensures (Contents(), ok) == DeliverOne(old(Contents()), w, io)
    {
      hide DetectLimit, HasParked, Repark, Finish, AfterSend;
      var policy := ReadPolicy(Contents(), w.workspace, io.policyReadOk);
      if IsLimit(w) && !MayFire(policy) {
        ok := Mark(w.id, io.markOk);
        return;
      }
      var prompt := PromptOf(w, policy);
      if !io.sessionAlive {
        var outcome := ReparkPrompt(w, prompt, io.repark);
        if StaysPending(outcome, IsLimit(w)) { return true; }
        ok := Mark(w.id, io.markOk);
        return;
      }
      if IsLimit(w) {
        if io.pane.None? { return true; }
        if !ShowsKind(io.pane.value, w.kind, io.now, io.localOffset) {
          ok := Mark(w.id, io.markOk);
          return;
        }
      }
      if w.workspace in carrying { return true; }
      if !io.peekOk || HasParked(Contents(), w.workspace) { return true; }
      if io.sendOk {
        RecordSend(w, prompt, io.incrementOk);
      } else {
        var outcome := ReparkPrompt(w, prompt, io.repark);
        if StaysPending(outcome, IsLimit(w)) { return true; }
      }
      ok := Mark(w.id, io.markOk);
    }

    method DeliverDueWakeups(due: seq<Wakeup>, ios: seq<DeliveryIo>) returns (ok: bool)
      requires |ios| == |due|
      requires LatestKnown(Contents(), ios)
      modifies this`wakeups, this`policies, this`sessions, this`history
      ensures (Contents(), ok) == DeliverAll(old(Contents()), due, ios)
    {
      hide DeliverOne;
      var i := 0;
      while i < |due|
        invariant 0 <= i <= |due|
        invariant LatestKnown(Contents(), ios)
        invariant DeliverAll(old(Contents()), due, ios) == DeliverAll(Contents(), due[i..], ios[i..])
      {
        ghost var before := Contents();
        assert due[i..][1..] == due[i + 1..] && ios[i..][1..] == ios[i + 1..];
        DeliverKeepsSessions(before, due[i], ios[i]);
        var going := DeliverWakeup(due[i], ios[i]);
        if !going { return false; }
        i := i + 1;
      }
      return true;
    }

    method SchedulePolicy(ws: Workspace, p: Policy, now: Instant, io: ScheduleIo) returns (ok: bool)
      modifies this`wakeups, this`nextId
      ensures (Contents(), ok) == ScheduleOne(old(Contents()), ws, p, now, io)
    {
      hide DetectLimit, FireAt, HasPending;
      if CapReached(p) { return true; }
      if !io.sessionAlive { return true; }
      if io.pane.None? { return true; }
      var signal := DetectLimit(io.pane.value, now, io.localOffset);
      if signal.None? { return true; }
      var kind := KindOf(signal.value);
      if !io.countOk { return false; }
      if HasPending(Contents(), ws, kind) { return true; }
      if io.create.InsertFailed? { return false; }
      var fireAt := FireAt(signal.value, now, p.retrySecs);
      wakeups := wakeups[nextId := Wakeup(nextId, ws, fireAt, kind, None, false)];
      nextId := nextId + 1;
      return io.create.Created?;
    }

    method DetectAndSchedule(todo: seq<EnabledPolicy>, now: Instant, ios: seq<ScheduleIo>) returns (ok: bool)
      requires |ios| == |todo|
      modifies this`wakeups, this`nextId
      ensures (Contents(), ok) == ScheduleAll(old(Contents()), todo, now, ios)
    {
      hide ScheduleOne;
      var i := 0;
      while i < |todo|
        invariant 0 <= i <= |todo|
        invariant ScheduleAll(old(Contents()), todo, now, ios) == ScheduleAll(Contents(), todo[i..], now, ios[i..])
      {
        assert todo[i..][1..] == todo[i + 1..] && ios[i..][1..] == ios[i + 1..];
        var going := SchedulePolicy(todo[i].workspace, todo[i].policy, now, ios[i]);
        if !going { return false; }
        i := i + 1;
      }
      return true;
    }

    /** One tick: a delivery that cannot be recorded, or a list that cannot be read, ends it before
        anything more happens. `due` and `todo` are the lists read, if they could be. */
    method Tick(due: Option<seq<Wakeup>>, deliveries: seq<DeliveryIo>, todo: Option<seq<EnabledPolicy>>,
                now: Instant, schedules: seq<ScheduleIo>)
      returns (ok: bool)
      requires due.Some? ==> |deliveries| == |due.value|
      requires todo.Some? ==> |schedules| == |todo.value|
      requires LatestKnown(Contents(), deliveries)
      modifies this
      ensures due.None? ==> Contents() == old(Contents()) && !ok
      ensures due.Some? ==>
                var (delivered, going) := DeliverAll(old(Contents()), due.value, deliveries);
                (Contents(), ok) ==
                if going && todo.Some? then ScheduleAll(delivered, todo.value, now, schedules) else (delivered, false)
    {
      hide DeliverAll, ScheduleAll;
      if due.None? { return false; }
      ok := DeliverDueWakeups(due.value, deliveries);
      if !ok { return; }
      if todo.None? { return false; }
      ok := DetectAndSchedule(todo.value, now, schedules);
    }
  }
}
