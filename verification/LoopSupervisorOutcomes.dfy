/** What one delivery and one scheduling step do, exactly: when a wake-up is typed, parked, marked
    fired or left pending, and which row a limit schedules. */
module LoopSupervisorOutcomes {
  import opened Text
  import opened ResetClock
  import opened ResetClockProofs
  import opened LoopSupervisor
  import opened LoopSupervisorProofs

  // ---------- The circumstances ----------

  /** A manual wake-up needs no policy; any other needs one that is readable, enabled and under its cap. */
  ghost predicate PolicyAllows(db: Db, w: Wakeup, io: DeliveryIo)
  {
    w.kind == Manual ||
    (io.policyReadOk && w.workspace in db.policies &&
     var p := db.policies[w.workspace];
     p.enabled && (p.maxAttempts <= 0 || p.attemptsUsed < p.maxAttempts))
  }

  /** A manual wake-up is typed whatever the pane shows; any other only while it shows its kind. */
  ghost predicate PaneAllows(w: Wakeup, io: DeliveryIo)
  {
    w.kind == Manual ||
    (io.pane.Some? &&
     var signal := DetectLimit(io.pane.value, io.now, io.localOffset);
     match w.kind
     case RateLimitRetry => signal == Some(RateLimited)
     case OverloadRetry => signal == Some(Overloaded)
     case UsageLimitWake => signal.Some? && signal.value.UsageLimited?
     case Manual => true
     case Unknown => false)
  }

  /** The pane is free: no attach delivers into it and no prompt waits for one. */
  ghost predicate PaneFree(db: Db, w: Wakeup, io: DeliveryIo)
  {
    w.workspace !in db.carrying && io.peekOk && NothingParked(db, w.workspace)
  }

  ghost predicate TriesToSend(db: Db, w: Wakeup, io: DeliveryIo)
  {
    PolicyAllows(db, w, io) && io.sessionAlive && PaneAllows(w, io) && PaneFree(db, w, io)
  }

  /** The session is gone, or typing failed. */
  ghost predicate TriesToPark(db: Db, w: Wakeup, io: DeliveryIo)
  {
    (PolicyAllows(db, w, io) && !io.sessionAlive) || (TriesToSend(db, w, io) && !io.sendOk)
  }

  /** All queries of the re-park succeed and find nothing parked. */
  ghost predicate SlotsSearched(db: Db, ws: Workspace, io: ReparkIo)
  {
    io.peekOk && NothingParked(db, ws) && io.findOk
  }

  ghost predicate SlotFree(db: Db, ws: Workspace, io: ReparkIo)
    requires io.latest.Some? ==> io.latest.value in db.sessions
  {
    && SlotsSearched(db, ws, io) && io.latest.Some? && io.writeOk
    && io.racer.None? && db.sessions[io.latest.value].pending.None?
  }

  /** A prompt is parked already, or arrives first. */
  ghost predicate SlotTaken(db: Db, ws: Workspace, io: ReparkIo)
    requires io.latest.Some? ==> io.latest.value in db.sessions
  {
    io.peekOk &&
    (!NothingParked(db, ws) ||
     (io.findOk && io.latest.Some? && io.writeOk && (io.racer.Some? || db.sessions[io.latest.value].pending.Some?)))
  }

  ghost predicate NoRow(db: Db, ws: Workspace, io: ReparkIo) { SlotsSearched(db, ws, io) && io.latest.None? }

  /** The wake-up's own prompt, else the policy's continuation, else the default. */
  ghost predicate IsPromptFor(prompt: string, db: Db, w: Wakeup, io: DeliveryIo)
  {
    match w.prompt
    case Some(own) => prompt == own
    case None =>
      if io.policyReadOk && w.workspace in db.policies then prompt == db.policies[w.workspace].continuation
      else prompt == "Continue."
  }

  // ---------- Delivery ----------

  ghost predicate AppendsSent(h: seq<Effect>, h': seq<Effect>) { exists i :: |h| <= i < |h'| && h'[i].Sent? }

  ghost predicate AppendsParked(h: seq<Effect>, h': seq<Effect>) { exists i :: |h| <= i < |h'| && h'[i].Parked? }

  lemma KindsMatch(w: Wakeup, io: DeliveryIo)
    requires w.kind != Manual && io.pane.Some?
    ensures ShowsKind(io.pane.value, w.kind, io.now, io.localOffset) <==> PaneAllows(w, io)
  {
    hide DetectLimit;
  }

  lemma DecideIff(db: Db, w: Wakeup, io: DeliveryIo)
    ensures Decide(db, w, io).Send? <==> TriesToSend(db, w, io) && io.sendOk
    ensures Decide(db, w, io).Park? <==> TriesToPark(db, w, io)
    ensures Decide(db, w, io).Send? || Decide(db, w, io).Park? ==> IsPromptFor(Decide(db, w, io).prompt, db, w, io)
    ensures Decide(db, w, io).Drop? <==>
            !PolicyAllows(db, w, io) || (io.sessionAlive && w.kind != Manual && io.pane.Some? && !PaneAllows(w, io))
  {
    NothingParkedIff(db, w.workspace);
    if w.kind != Manual && io.pane.Some? { KindsMatch(w, io); }
    hide NothingParked, HasParked, ShowsKind, DetectLimit;
  }

  lemma ReparkIff(db: Db, w: Wakeup, prompt: string, io: ReparkIo)
    requires io.latest.Some? ==> io.latest.value in db.sessions
    ensures Repark(db, w, prompt, io).0.Reparked? <==> SlotFree(db, w.workspace, io)
    ensures Repark(db, w, prompt, io).0.AlreadyParked? <==> SlotTaken(db, w.workspace, io)
    ensures Repark(db, w, prompt, io).0.NoSession? <==> NoRow(db, w.workspace, io)
  {
    NothingParkedIff(db, w.workspace);
    hide NothingParked, HasParked;
  }

  lemma OneEffect(h: seq<Effect>, e: Effect, id: WakeupId)
    ensures AppendsSent(h, h + [e]) <==> e.Sent?
    ensures AppendsParked(h, h + [e]) <==> e.Parked?
    ensures AppendsSent(h, h + [e] + [MarkFailed(id)]) <==> e.Sent?
    ensures AppendsParked(h, h + [e] + [MarkFailed(id)]) <==> e.Parked?
    ensures !AppendsSent(h, h) && !AppendsParked(h, h)
    ensures !AppendsSent(h, h + [MarkFailed(id)]) && !AppendsParked(h, h + [MarkFailed(id)])
  {
    var one, two := h + [e], h + [e] + [MarkFailed(id)];
    assert one[|h|] == e && two[|h|] == e && two[|h| + 1] == MarkFailed(id);
    assert (h + [MarkFailed(id)])[|h|] == MarkFailed(id);
  }

  /** A wake-up is typed exactly when its policy allows it, its session lives, the pane shows what it
      waits for and is free, and tmux takes the keys; what is typed is its own prompt. */
  lemma SentIff(db: Db, w: Wakeup, io: DeliveryIo)
    requires io.repark.latest.Some? ==> io.repark.latest.value in db.sessions
    ensures var h' := DeliverOne(db, w, io).0.history;
      && (AppendsSent(db.history, h') <==> TriesToSend(db, w, io) && io.sendOk)
      && (AppendsSent(db.history, h') ==>
            && |h'| > |db.history| && h'[|db.history|].Sent?
            && h'[|db.history|] == Sent(w.id, w.workspace, w.kind, h'[|db.history|].prompt)
            && IsPromptFor(h'[|db.history|].prompt, db, w, io))
  {
    DecideIff(db, w, io);
    var v, h, h' := Decide(db, w, io), db.history, DeliverOne(db, w, io).0.history;
    hide Decide, TriesToSend, TriesToPark, IsPromptFor, PolicyAllows, PaneAllows;
    if v.Send? {
      hide AppendsSent;
      assert h'[|h|] == Sent(w.id, w.workspace, w.kind, v.prompt);
      SentAt(h, h');
    } else if v.Park? {
      hide Repark, AppendsSent;
      ReparkFacts(db, w, v.prompt, io.repark);
      var db' := Repark(db, w, v.prompt, io.repark).1;
      OneEffect(h, if |db'.history| > |h| then db'.history[|h|] else MarkFailed(w.id), w.id);
    } else {
      OneEffect(h, MarkFailed(w.id), w.id);
    }
  }

  lemma SentAt(h: seq<Effect>, h': seq<Effect>)
    requires |h| < |h'| && h'[|h|].Sent?
    ensures AppendsSent(h, h')
  {}

  lemma ParkedAt(h: seq<Effect>, h': seq<Effect>)
    requires |h| < |h'| && h'[|h|].Parked?
    ensures AppendsParked(h, h')
  {}

  lemma NoParkAfterSend(db: Db, w: Wakeup, prompt: string, io: DeliveryIo)
    ensures !AppendsParked(db.history, Finish(AfterSend(db, w, prompt, io.incrementOk), w.id, io.markOk).0.history)
  {}

  /** A prompt is parked exactly when typing it was not possible and a slot was free to the end. */
  lemma ParkedIff(db: Db, w: Wakeup, io: DeliveryIo)
    requires io.repark.latest.Some? ==> io.repark.latest.value in db.sessions
    ensures var h' := DeliverOne(db, w, io).0.history;
      && (AppendsParked(db.history, h') <==> TriesToPark(db, w, io) && SlotFree(db, w.workspace, io.repark))
      && (AppendsParked(db.history, h') ==>
            && |h'| > |db.history| && h'[|db.history|].Parked?
            && h'[|db.history|] ==
               Parked(w.id, w.workspace, io.repark.latest.value, h'[|db.history|].prompt)
            && IsPromptFor(h'[|db.history|].prompt, db, w, io))
  {
    DecideIff(db, w, io);
    var v, h, h' := Decide(db, w, io), db.history, DeliverOne(db, w, io).0.history;
    hide Decide, TriesToSend, TriesToPark, IsPromptFor, PolicyAllows, PaneAllows, SlotFree, AppendsParked;
    if v.Send? {
      NoParkAfterSend(db, w, v.prompt, io);
    } else if v.Park? {
      hide Repark;
      ReparkIff(db, w, v.prompt, io.repark);
      ReparkFacts(db, w, v.prompt, io.repark);
      var (outcome, db') := Repark(db, w, v.prompt, io.repark);
      OneEffect(h, if |db'.history| > |h| then db'.history[|h|] else MarkFailed(w.id), w.id);
      if outcome.Reparked? {
        assert h'[|h|] == db'.history[|h|];
        ParkedAt(h, h');
      }
    } else {
      OneEffect(h, MarkFailed(w.id), w.id);
    }
  }

  /** Why a delivery leaves its wake-up for a later tick: the pane cannot be read or is not free, the
      re-park met an error, or a manual prompt found its slot taken. */
  ghost predicate Waits(db: Db, w: Wakeup, io: DeliveryIo)
    requires io.repark.latest.Some? ==> io.repark.latest.value in db.sessions
  {
    PolicyAllows(db, w, io) &&
    (|| (io.sessionAlive && w.kind != Manual && io.pane.None?)
     || (io.sessionAlive && PaneAllows(w, io) && !PaneFree(db, w, io))
     || (TriesToPark(db, w, io) && ParkWaits(db, w, io.repark)))
  }

  ghost predicate ParkWaits(db: Db, w: Wakeup, io: ReparkIo)
    requires io.latest.Some? ==> io.latest.value in db.sessions
  {
    if SlotTaken(db, w.workspace, io) then w.kind == Manual
    else !SlotFree(db, w.workspace, io) && !NoRow(db, w.workspace, io)
  }

  /** A pending wake-up stays pending exactly when it waits or its mark cannot be written. */
  lemma StaysPendingIff(db: Db, w: Wakeup, io: DeliveryIo)
    requires io.repark.latest.Some? ==> io.repark.latest.value in db.sessions
    requires !w.fired && w.id in db.wakeups && db.wakeups[w.id] == w
    ensures var rows := DeliverOne(db, w, io).0.wakeups;
      && w.id in rows && (rows[w.id] == w <==> Waits(db, w, io) || !io.markOk)
      && (rows[w.id] != w ==> rows[w.id] == w.(fired := true))
      && forall id :: id != w.id ==> (id in rows <==> id in db.wakeups) && (id in rows ==> rows[id] == db.wakeups[id])
  {
    DecideIff(db, w, io);
    var v := Decide(db, w, io);
    assert v.Drop? || v.Wait? || v.Send? ==> (v.Wait? <==> Waits(db, w, io)) by {
      hide Decide, SlotFree, SlotTaken, NoRow, PaneFree;
    }
    assert v.Park? ==> (Waits(db, w, io) <==> ParkWaits(db, w, io.repark)) by {
      hide Decide, SlotFree, SlotTaken, NoRow, ParkWaits;
    }
    hide Decide, Repark, Waits, ParkWaits, TriesToSend, TriesToPark, PolicyAllows, PaneAllows, IsPromptFor;
    if v.Park? {
      ParkStaysIff(db, w, v.prompt, io.repark);
      ReparkFacts(db, w, v.prompt, io.repark);
    }
  }

  lemma ParkStaysIff(db: Db, w: Wakeup, prompt: string, io: ReparkIo)
    requires io.latest.Some? ==> io.latest.value in db.sessions
    ensures StaysPending(Repark(db, w, prompt, io).0, IsLimit(w)) <==> ParkWaits(db, w, io)
  {
    ReparkIff(db, w, prompt, io);
    hide Repark, SlotFree, SlotTaken, NoRow;
  }

  /** A due manual wake-up is always typed into a live session whose pane is free and takes the keys. */
  lemma ManualAlwaysDelivers(db: Db, w: Wakeup, io: DeliveryIo)
    requires io.repark.latest.Some? ==> io.repark.latest.value in db.sessions
    requires w.kind == Manual && w.prompt.Some?
    requires io.sessionAlive && w.workspace !in db.carrying && io.peekOk && NothingParked(db, w.workspace) && io.sendOk
    ensures var h' := DeliverOne(db, w, io).0.history;
      |h'| > |db.history| && h'[|db.history|] == Sent(w.id, w.workspace, Manual, w.prompt.value)
  {
    SentIff(db, w, io);
    hide DeliverOne, AppendsSent, NothingParked;
  }

  // ---------- An attach ----------

  /** A confirmed attach empties the slot it delivered, and records that it did. */
  lemma AttachClears(db: Db, ws: Workspace)
    requires CarriesHeld(db) && ws in db.carrying
    ensures var c, db' := db.carrying[ws], FinishAttach(db, ws, true);
      && db'.history == db.history + [AttachDelivered(c.session, c.prompt)]
      && c.session in db'.sessions && db'.sessions[c.session].pending.None? && ws !in db'.carrying
  {}

  // ---------- Scheduling ----------

  /** The kind of row a signal schedules and the instant it fires. */
  ghost predicate RowFor(kind: WakeupKind, fireAt: Instant, signal: LimitSignal, now: Instant, retrySecs: int)
  {
    match signal
    case RateLimited =>
      kind == RateLimitRetry && fireAt == now + Seconds(if retrySecs >= 1 then retrySecs else 1)
    case Overloaded => kind == OverloadRetry && fireAt == now + Seconds(240)
    case UsageLimited(None) => kind == UsageLimitWake && fireAt == now + Seconds(1800)
    case UsageLimited(Some(reset)) => kind == UsageLimitWake && FirstAfter(fireAt, reset + Seconds(300), now)
  }

  lemma RowForSignal(pane: string, now: Instant, localOffset: int, retrySecs: int)
    requires DetectLimit(pane, now, localOffset).Some?
    ensures var signal := DetectLimit(pane, now, localOffset).value;
      RowFor(KindOf(signal), FireAt(signal, now, retrySecs), signal, now, retrySecs)
  {
    hide ShowsRateLimit, ShowsUsageLimit, ShowsOverload, ResetAt, FirstAfter;
    if ResetAt(pane, now, localOffset).Some? { WakeIsFirstBufferedReset(pane, now, localOffset); }
  }

  /** What makes a policy's workspace due for a row: it is under its cap, its session lives, its pane
      could be read and shows a limit. */
  ghost predicate NeedsRow(p: Policy, now: Instant, io: ScheduleIo)
  {
    && (p.maxAttempts <= 0 || p.attemptsUsed < p.maxAttempts) && io.sessionAlive && io.pane.Some?
    && DetectLimit(io.pane.value, now, io.localOffset).Some?
  }

  lemma NeedsRowIff(p: Policy, now: Instant, io: ScheduleIo)
    ensures NeedsRow(p, now, io) <==> SignalToSchedule(p, now, io).Some?
    ensures NeedsRow(p, now, io) ==>
              SignalToSchedule(p, now, io) == DetectLimit(io.pane.value, now, io.localOffset)
  {
    hide DetectLimit;
  }

  /** A scheduling step adds a row exactly when one is needed, none of its kind is pending and the
      queries succeed; the row is unfired, without a prompt, of the kind and at the time of the limit. */
  lemma ScheduledIff(db: Db, ws: Workspace, p: Policy, now: Instant, io: ScheduleIo)
    requires RowsKeyed(db)
    ensures var (db', ok) := ScheduleOne(db, ws, p, now, io);
      var signal := SignalToSchedule(p, now, io);
      var adds :=
        NeedsRow(p, now, io) && io.countOk && !HasPending(db, ws, KindOf(signal.value)) && !io.create.InsertFailed?;
      && (db'.wakeups != db.wakeups <==> adds)
      && (adds ==>
            && db.nextId in db'.wakeups
            && var row := db'.wakeups[db.nextId];
               && db'.wakeups == db.wakeups[db.nextId := Wakeup(db.nextId, ws, row.fireAt, row.kind, None, false)]
               && RowFor(row.kind, row.fireAt, signal.value, now, p.retrySecs))
      && (!ok <==> NeedsRow(p, now, io) &&
                   (!io.countOk || (!HasPending(db, ws, KindOf(signal.value)) && !io.create.Created?)))
  {
    NeedsRowIff(p, now, io);
    hide SignalToSchedule, HasPending, RowFor;
    if NeedsRow(p, now, io) { RowForSignal(io.pane.value, now, io.localOffset, p.retrySecs); }
    hide NeedsRow, FireAt;
    assert db.nextId !in db.wakeups;
  }
}
