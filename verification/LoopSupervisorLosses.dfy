/** What a run can lose or exceed, and exactly when: dropped retries, deleted manual wake-ups and
    attempt caps that do not hold. */
module LoopSupervisorLosses {
  import opened Text
  import opened ResetClock
  import opened LoopSupervisor
  import opened LoopSupervisorProofs
  import opened LoopSupervisorRuns

  // ---------- Reachable states ----------

  ghost predicate Reachable(s: State)
  {
    exists states, events :: IsRun(states, events) && states[|events|] == s
  }

  lemma StartReachable()
    ensures Reachable(State(EMPTY, Idle))
  {
    assert IsRun([State(EMPTY, Idle)], []);
  }

  lemma ReachNext(s: State, e: Event)
    requires Reachable(s) && Enabled(s, e)
    ensures Reachable(Step(s, e))
  {
    var states, events :| IsRun(states, events) && states[|events|] == s;
    hide Step, Enabled;
    var states', events' := states + [Step(s, e)], events + [e];
    forall i | 0 <= i < |events'|
      ensures Enabled(states'[i], events'[i]) && states'[i + 1] == Step(states'[i], events'[i])
    {
      if i < |events| { assert Enabled(states[i], events[i]); }
    }
    assert IsRun(states', events');
  }

  // ---------- Dropped retries ----------

  /** The wake-up is marked fired and nothing was typed or parked. */
  ghost predicate Dropped(db: Db, w: Wakeup, io: DeliveryIo)
    requires io.repark.latest.Some? ==> io.repark.latest.value in db.sessions
  {
    var db' := DeliverOne(db, w, io).0;
    && w.id in db'.wakeups && db'.wakeups[w.id].fired
    && forall i :: |db.history| <= i < |db'.history| ==> !db'.history[i].Sent? && !db'.history[i].Parked?
  }

  predicate PolicyStops(db: Db, ws: Workspace, readOk: bool)
  {
    !readOk || ws !in db.policies || !db.policies[ws].enabled || CapReached(db.policies[ws])
  }

  /** The re-park succeeds in finding that there is nothing to do: a prompt is parked already, or
      there is no session row. */
  predicate NowhereToPark(db: Db, ws: Workspace, io: ReparkIo)
    requires io.latest.Some? ==> io.latest.value in db.sessions
  {
    io.peekOk &&
    (HasParked(db, ws) ||
     (io.findOk && (io.latest.None? || (io.writeOk && (io.racer.Some? || db.sessions[io.latest.value].pending.Some?)))))
  }

  /** The delivery reaches the send, and the send fails. */
  predicate SendFails(db: Db, ws: Workspace, io: DeliveryIo)
  {
    io.sessionAlive && io.pane.Some? && ws !in db.carrying && io.peekOk && !HasParked(db, ws) && !io.sendOk
  }

  predicate DropGuard(db: Db, w: Wakeup, io: DeliveryIo)
    requires io.repark.latest.Some? ==> io.repark.latest.value in db.sessions
  {
    || PolicyStops(db, w.workspace, io.policyReadOk)
    || (io.sessionAlive && io.pane.Some? && !ShowsKind(io.pane.value, w.kind, io.now, io.localOffset))
    || ((!io.sessionAlive || SendFails(db, w.workspace, io)) && NowhereToPark(db, w.workspace, io.repark))
  }

  lemma ParkDropsIff(db: Db, w: Wakeup, prompt: string, io: ReparkIo)
    requires io.latest.Some? ==> io.latest.value in db.sessions
    ensures NowhereToPark(db, w.workspace, io) <==>
            Repark(db, w, prompt, io).0.AlreadyParked? || Repark(db, w, prompt, io).0.NoSession?
  {
    hide HasParked;
  }

  /** A pending limit wake-up is dropped exactly when its mark is written and its policy cannot be
      read or does not allow it, or the live pane shows something else, or the prompt has nowhere
      to be parked. */
  lemma LimitDroppedIff(db: Db, w: Wakeup, io: DeliveryIo)
    requires io.repark.latest.Some? ==> io.repark.latest.value in db.sessions
    requires IsLimit(w) && !w.fired && w.id in db.wakeups && db.wakeups[w.id] == w
    ensures Dropped(db, w, io) <==> io.markOk && DropGuard(db, w, io)
  {
    hide HasParked, ShowsKind, Repark, NowhereToPark, AfterSend;
    var v := Decide(db, w, io);
    assert v.Drop? ==> DropGuard(db, w, io);
    assert v.Wait? || v.Send? ==> !DropGuard(db, w, io);
    if v.Send? {
      SendIsLogged(db, w, v.prompt, io.incrementOk);
      hide Decide;
      assert DeliverOne(db, w, io).0.history[|db.history|].Sent?;
    } else if v.Park? {
      assert DropGuard(db, w, io) <==> NowhereToPark(db, w.workspace, io.repark);
      hide Decide;
      ParkDropsIff(db, w, v.prompt, io.repark);
      ReparkFacts(db, w, v.prompt, io.repark);
      ParkCase(db, w, io, v.prompt);
    }
  }

  lemma SendIsLogged(db: Db, w: Wakeup, prompt: string, incrementOk: bool)
    ensures var h := AfterSend(db, w, prompt, incrementOk).history;
      |h| > |db.history| && h[|db.history|].Sent?
  {}

  lemma ParkCase(db: Db, w: Wakeup, io: DeliveryIo, prompt: string)
    requires io.repark.latest.Some? ==> io.repark.latest.value in db.sessions
    requires IsLimit(w) && !w.fired && w.id in db.wakeups && db.wakeups[w.id] == w && Decide(db, w, io) == Park(prompt)
    ensures Dropped(db, w, io) <==>
            var outcome := Repark(db, w, prompt, io.repark).0;
            io.markOk && (outcome.AlreadyParked? || outcome.NoSession?)
  {
    hide Decide, Repark;
    ReparkFacts(db, w, prompt, io.repark);
    match Repark(db, w, prompt, io.repark).0
    case Reparked =>
      assert DeliverOne(db, w, io).0.history[|db.history|].Parked?;
    case NoSession =>
    case AlreadyParked =>
    case Failed =>
  }

  /** A policy that cannot be read costs the retry even where a readable one sends it. */
  lemma PolicyErrorDropsRetry(db: Db, w: Wakeup, io: DeliveryIo)
    requires io.repark.latest.Some? ==> io.repark.latest.value in db.sessions
    requires IsLimit(w) && !w.fired && w.id in db.wakeups && db.wakeups[w.id] == w && io.markOk
    requires Decide(db, w, io).Send?
    ensures w.workspace in db.policies && db.policies[w.workspace].enabled && !CapReached(db.policies[w.workspace])
    ensures Dropped(db, w, io.(policyReadOk := false))
  {
    LimitDroppedIff(db, w, io.(policyReadOk := false));
    hide HasParked, ShowsKind, Dropped;
  }

  // ---------- Deleted manual wake-ups ----------

  /** Saving a policy deletes a pending wake-up, manual or not, exactly when the loop of its workspace
      is disabled and the delete succeeds. */
  lemma SavingDeletesIff(db: Db, ws: Workspace, p: Policy, deleteOk: bool, id: WakeupId)
    requires id in db.wakeups && !db.wakeups[id].fired
    ensures id !in SavePolicyIn(db, ws, p, deleteOk).wakeups <==>
            db.wakeups[id].workspace == ws && !p.enabled && deleteOk
  {}

  /** Disabling the loop loses a manual prompt: in a reachable state the user's wake-up was pending,
      and after the user disables the loop it is gone with nothing typed or parked. */
  lemma DisablingLosesManualPrompt()
    ensures var db := Insert(EMPTY, 0, 0, Manual, Some("go"));
      var s := State(SavePolicyIn(db, 0, Policy(false, 60, "go", 0, 0), true), Idle);
      && Reachable(State(db, Idle)) && IsPending(db, 0, 0, Manual)
      && Reachable(s) && s.db.wakeups == map[] && s.db.history == [PolicySaved(0, false, true)]
  {
    var db := Insert(EMPTY, 0, 0, Manual, Some("go"));
    StartReachable();
    hide Reachable;
    ReachNext(State(EMPTY, Idle), CreateManual(0, 0, Some("go")));
    ReachNext(State(db, Idle), SavePolicy(0, false, 60, "go", 0, true));
    SavingDeletesIff(db, 0, Policy(false, 60, "go", 0, 0), true, 0);
  }

  // ---------- Attempt caps ----------

  /** A limit send whose increment is lost counts as a send but leaves the policy, and so the cap,
      as it was: after it sends exceed the counter by one more. */
  lemma LostIncrementIsUncounted(db: Db, w: Wakeup, io: DeliveryIo)
    requires io.repark.latest.Some? ==> io.repark.latest.value in db.sessions
    requires IsLimit(w) && Decide(db, w, io).Send? && !io.incrementOk && io.markOk
    ensures var db' := DeliverOne(db, w, io).0;
      && db'.policies == db.policies && db'.sessions == db.sessions
      && db'.carrying == db.carrying && db'.nextId == db.nextId
      && (w.id in db.wakeups ==> db'.wakeups == db.wakeups[w.id := db.wakeups[w.id].(fired := true)])
      && DeliverOne(db, w, io).1
      && LimitSends(db'.history, w.workspace) == LimitSends(db.history, w.workspace) + 1
  {
    hide Decide, LimitSends;
    var sent := Sent(w.id, w.workspace, w.kind, Decide(db, w, io).prompt);
    CountsAfter(db.history, sent, w.workspace, 0);
    CountsAfter(db.history + [sent], IncrementFailed(w.workspace), w.workspace, 0);
  }

  const PANE: string := "rate limited"

  lemma PaneShows(now: Instant)
    ensures DetectLimit(PANE, now, 0) == Some(RateLimited)
  {
    hide ShowsUsageLimit, ShowsOverload, ResetAt;
    assert Contains(PANE, "rate limited");
  }

  function CappedPolicy(max: int): Policy { Policy(true, 60, "go", max, 0) }

  /** Between two retries: every wake-up has fired, and the counter of workspace 0 says nothing was sent. */
  ghost predicate Quiet(db: Db, max: int)
  {
    && RowsKeyed(db) && (forall id :: id in db.wakeups ==> db.wakeups[id].fired)
    && db.policies == map[0 := CappedPolicy(max)] && db.sessions == map[] && db.carrying == map[]
  }

  function Retry(db: Db, now: Instant): Wakeup { Wakeup(db.nextId, 0, now + Seconds(60), RateLimitRetry, None, false) }

  function Due(db: Db, now: Instant): Db
  {
    db.(wakeups := db.wakeups[db.nextId := Retry(db, now)], nextId := db.nextId + 1)
  }

  function LossyIo(now: Instant): DeliveryIo
  {
    DeliveryIo(true, true, Some(PANE), now, 0, true, true, false, ReparkIo(true, true, None, None, true), true)
  }

  lemma ReachTick(db: Db, now: Instant, due: seq<Wakeup>)
    requires Reachable(State(db, Idle)) && IsDueList(db, now, due)
    ensures Reachable(State(db, Delivering(due, now)))
  {
    hide Reachable, IsDueList;
    ReachNext(State(db, Idle), BeginTick(now, now, due));
  }

  lemma ReachDelivered(db: Db, w: Wakeup, now: Instant, io: DeliveryIo)
    requires Reachable(State(db, Delivering([w], now))) && LatestIsHonest(db, w.workspace, io.repark.latest)
    requires DeliverOne(db, w, io).1
    ensures Reachable(State(DeliverOne(db, w, io).0, Delivering([], now)))
  {
    hide Reachable, DeliverOne, HasSession;
    assert [w][1..] == [];
    ReachNext(State(db, Delivering([w], now)), DeliverNext(io));
  }

  /** Scheduling the one enabled policy and ending the tick. */
  lemma ReachScheduled(db: Db, max: int, now: Instant, io: ScheduleIo)
    requires Reachable(State(db, Delivering([], now))) && db.policies == map[0 := CappedPolicy(max)]
    requires ScheduleOne(db, 0, CappedPolicy(max), now, io).1
    ensures Reachable(State(ScheduleOne(db, 0, CappedPolicy(max), now, io).0, Idle))
  {
    hide Reachable, ScheduleOne;
    var todo := [EnabledPolicy(0, CappedPolicy(max))];
    assert todo[0] == EnabledPolicy(0, CappedPolicy(max)) && todo[1..] == [];
    assert IsEnabledList(db, todo);
    ReachNext(State(db, Delivering([], now)), BeginSchedule(todo));
    ReachNext(State(db, Scheduling(todo, now)), ScheduleNext(io));
    ReachNext(State(ScheduleOne(db, 0, CappedPolicy(max), now, io).0, Scheduling([], now)), EndTick);
  }

  /** A tick that schedules a retry for the limit shown. */
  lemma ScheduleRetry(db: Db, max: int, now: Instant)
    requires max > 0 && Quiet(db, max) && Reachable(State(db, Idle))
    ensures Reachable(State(Due(db, now), Idle))
  {
    var io := ScheduleIo(true, Some(PANE), 0, true, Created);
    hide Reachable, DetectLimit;
    PaneShows(now);
    assert ScheduleOne(db, 0, CappedPolicy(max), now, io) == (Due(db, now), true);
    hide ScheduleOne;
    ReachTick(db, now, []);
    ReachScheduled(db, max, now, io);
  }

  lemma RetrySent(db: Db, max: int, now: Instant)
    requires max > 0 && Quiet(db, max)
    ensures Decide(Due(db, now), Retry(db, now), LossyIo(now + Seconds(60))) == Send("go")
  {
    hide DetectLimit;
    PaneShows(now + Seconds(60));
  }

  lemma QuietAgain(db: Db, max: int, now: Instant)
    requires max > 0 && Quiet(db, max)
    ensures var (db', ok) := DeliverOne(Due(db, now), Retry(db, now), LossyIo(now + Seconds(60)));
      ok && Quiet(db', max) && LimitSends(db'.history, 0) == LimitSends(db.history, 0) + 1
  {
    RetrySent(db, max, now);
    hide Decide, LimitSends, DeliverOne, Quiet;
    LostIncrementIsUncounted(Due(db, now), Retry(db, now), LossyIo(now + Seconds(60)));
    QuietAfter(db, DeliverOne(Due(db, now), Retry(db, now), LossyIo(now + Seconds(60))).0, max, now);
  }

  lemma QuietAfter(db: Db, db': Db, max: int, now: Instant)
    requires Quiet(db, max)
    requires db'.wakeups == Due(db, now).wakeups[db.nextId := Retry(db, now).(fired := true)]
    requires db'.nextId == db.nextId + 1
    requires db'.policies == db.policies && db'.sessions == db.sessions && db'.carrying == db.carrying
    ensures Quiet(db', max)
  {}

  lemma RetryIsDue(db: Db, max: int, now: Instant)
    requires Quiet(db, max)
    ensures IsDueList(Due(db, now), now + Seconds(60), [Retry(db, now)])
    ensures LatestIsHonest(Due(db, now), 0, None)
  {
    assert [Retry(db, now)][0] == Retry(db, now);
  }

  /** A later tick that sends it and loses the increment; its scheduling finds the session gone. */
  lemma SendRetry(db: Db, max: int, now: Instant)
    requires max > 0 && Quiet(db, max) && Reachable(State(Due(db, now), Idle))
    ensures var db' := DeliverOne(Due(db, now), Retry(db, now), LossyIo(now + Seconds(60))).0;
      Quiet(db', max) && Reachable(State(db', Idle)) && LimitSends(db'.history, 0) == LimitSends(db.history, 0) + 1
  {
    var due, w, later := Due(db, now), Retry(db, now), now + Seconds(60);
    QuietAgain(db, max, now);
    RetryIsDue(db, max, now);
    hide Reachable, LimitSends, DeliverOne, IsDueList, LatestIsHonest;
    ReachTick(due, later, [w]);
    ReachDelivered(due, w, later, LossyIo(later));
    ReachScheduled(DeliverOne(due, w, LossyIo(later)).0, max, later, ScheduleIo(false, None, 0, true, Created));
  }

  lemma FirstQuiet(max: int)
    ensures var db := SavePolicyIn(EMPTY, 0, CappedPolicy(max), true);
      Quiet(db, max) && Reachable(State(db, Idle)) && LimitSends(db.history, 0) == 0
  {
    StartReachable();
    hide Reachable;
    ReachNext(State(EMPTY, Idle), SavePolicy(0, true, 60, "go", max, true));
    CountsAfter([], PolicySaved(0, true, false), 0, 0);
  }

  /** For every cap and every number there is a run that sends that many retries since the policy was
      saved: the cap holds only as far as increments are written. */
  lemma {:induction false} LostIncrementBreaksCap(max: int, n: nat) returns (db: Db)
    requires max > 0
    ensures Reachable(State(db, Idle)) && Quiet(db, max) && db.policies[0].maxAttempts == max
    ensures LimitSends(db.history, 0) == n
  {
    hide LimitSends, Reachable, Quiet;
    if n == 0 {
      FirstQuiet(max);
      db := SavePolicyIn(EMPTY, 0, CappedPolicy(max), true);
    } else {
      var before := LostIncrementBreaksCap(max, n - 1);
      var now := Seconds(60 * n);
      ScheduleRetry(before, max, now);
      SendRetry(before, max, now);
      db := DeliverOne(Due(before, now), Retry(before, now), LossyIo(now + Seconds(60))).0;
    }
    QuietPolicy(db, max);
  }

  /** In a reachable state an enabled loop under its cap loses a retry to a failing read, although the
      pane still shows the limit and the prompt could be sent. */
  lemma PolicyErrorLosesRetry() returns (db: Db, w: Wakeup, io: DeliveryIo)
    ensures Reachable(State(db, Delivering([w], io.now)))
    ensures w.workspace in db.policies && db.policies[w.workspace].enabled && !CapReached(db.policies[w.workspace])
    ensures io.repark.latest.None? && Decide(db, w, io).Send? && Dropped(db, w, io.(policyReadOk := false))
  {
    hide Reachable, Decide, Dropped, LimitSends, Quiet;
    var quiet := LostIncrementBreaksCap(1, 0);
    db, w, io := Due(quiet, 0), Retry(quiet, 0), LossyIo(Seconds(60));
    RetryComesDue(quiet, 1, 0);
    RetrySent(quiet, 1, 0);
    RetryLost(db, w, io);
  }

  lemma RetryLost(db: Db, w: Wakeup, io: DeliveryIo)
    requires io.repark.latest.None? && io.markOk && Decide(db, w, io).Send?
    requires IsLimit(w) && !w.fired && w.id in db.wakeups && db.wakeups[w.id] == w
    ensures w.workspace in db.policies && db.policies[w.workspace].enabled && !CapReached(db.policies[w.workspace])
    ensures Dropped(db, w, io.(policyReadOk := false))
  {
    hide Decide, Dropped;
    PolicyErrorDropsRetry(db, w, io);
  }

  lemma RetryComesDue(db: Db, max: int, now: Instant)
    requires max > 0 && Quiet(db, max) && Reachable(State(db, Idle))
    ensures Reachable(State(Due(db, now), Delivering([Retry(db, now)], now + Seconds(60))))
  {
    hide Reachable, IsDueList, LatestIsHonest, Quiet;
    ScheduleRetry(db, max, now);
    RetryIsDue(db, max, now);
    ReachTick(Due(db, now), now + Seconds(60), [Retry(db, now)]);
  }

  lemma QuietPolicy(db: Db, max: int)
    requires Quiet(db, max)
    ensures 0 in db.policies && db.policies[0].maxAttempts == max
  {}
}
