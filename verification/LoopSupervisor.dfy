/** The loop supervisor: each tick delivers due wake-ups, then schedules one wake-up per limit shown.
    Database reads and writes, tmux and the attach path are inputs of the steps. */
module LoopSupervisor {
  import opened Text
  import opened ResetClock

  // ---------- Rows ----------

  type Workspace = nat
  type WakeupId = nat
  type SessionId = nat

  datatype WakeupKind = RateLimitRetry | OverloadRetry | UsageLimitWake | Manual | Unknown

  function KindOf(signal: LimitSignal): WakeupKind
  {
    match signal
    case RateLimited => RateLimitRetry
    case Overloaded => OverloadRetry
    case UsageLimited(_) => UsageLimitWake
  }

  predicate IsRetry(kind: WakeupKind) { kind != Manual && kind != Unknown }

  datatype Wakeup = Wakeup(id: WakeupId, workspace: Workspace, fireAt: Instant, kind: WakeupKind,
                           prompt: Option<string>, fired: bool)

  predicate IsLimit(w: Wakeup) { w.kind != Manual }

  datatype Policy = Policy(enabled: bool, retrySecs: int, continuation: string, maxAttempts: int, attemptsUsed: int)

  // A cap of zero or less means uncapped.
  predicate CapReached(p: Policy) { p.maxAttempts > 0 && p.attemptsUsed >= p.maxAttempts }

  datatype SessionRow = SessionRow(workspace: Workspace, pending: Option<string>)

  /** A terminal attach that holds a workspace's delivery claim and carries its parked prompt. */
  datatype Carry = Carry(session: SessionId, prompt: string)

  /** What has happened, oldest first. */
  datatype Effect =
    | Sent(id: WakeupId, workspace: Workspace, kind: WakeupKind, prompt: string)
    | Parked(id: WakeupId, workspace: Workspace, session: SessionId, prompt: string)
    | NoSessionRow(id: WakeupId, workspace: Workspace)
    | MarkFailed(id: WakeupId)
    | IncrementFailed(workspace: Workspace)
    | PolicySaved(workspace: Workspace, enabled: bool, cleared: bool)
    | Cancelled(id: WakeupId)
    | AttachDelivered(session: SessionId, prompt: string)

  datatype Db = Db(
    wakeups: map<WakeupId, Wakeup>,
    policies: map<Workspace, Policy>,
    sessions: map<SessionId, SessionRow>,
    carrying: map<Workspace, Carry>,
    nextId: nat,
    history: seq<Effect>)

  function Log(db: Db, e: Effect): Db { db.(history := db.history + [e]) }

  predicate HasParked(db: Db, ws: Workspace)
  {
    exists sid :: sid in db.sessions && db.sessions[sid].workspace == ws && db.sessions[sid].pending.Some?
  }

  predicate HasSession(db: Db, ws: Workspace)
  {
    exists sid :: sid in db.sessions && db.sessions[sid].workspace == ws
  }

  predicate IsPending(db: Db, id: WakeupId, ws: Workspace, kind: WakeupKind)
  {
    id in db.wakeups && db.wakeups[id].workspace == ws && db.wakeups[id].kind == kind && !db.wakeups[id].fired
  }

  predicate HasPending(db: Db, ws: Workspace, kind: WakeupKind)
  {
    exists id :: id in db.wakeups && IsPending(db, id, ws, kind)
  }

  // ---------- Delivery ----------

  /** Results of the I/O a re-park performs. `racer` is a prompt another writer parks on the chosen
      session between the check and the write. */
  datatype ReparkIo = ReparkIo(peekOk: bool, findOk: bool, latest: Option<SessionId>, racer: Option<string>,
                               writeOk: bool)

  /** Results of the I/O one delivery performs. `pane` is the lowercased capture. */
  datatype DeliveryIo = DeliveryIo(
    policyReadOk: bool, sessionAlive: bool, pane: Option<string>, now: Instant, localOffset: int,
    peekOk: bool, sendOk: bool, incrementOk: bool, repark: ReparkIo, markOk: bool)

  datatype ReparkOutcome = Reparked | AlreadyParked | NoSession | Failed

  predicate StaysPending(outcome: ReparkOutcome, isLimit: bool)
  {
    match outcome
    case Failed => true
    case AlreadyParked => !isLimit
    case Reparked => false
    case NoSession => false
  }

  const DEFAULT_CONTINUATION := "Continue."

  function ReadPolicy(db: Db, ws: Workspace, readOk: bool): Option<Policy>
  {
    if readOk && ws in db.policies then Some(db.policies[ws]) else None
  }

  predicate MayFire(policy: Option<Policy>) { policy.Some? && policy.value.enabled && !CapReached(policy.value) }

  function PromptOf(w: Wakeup, policy: Option<Policy>): string
  {
    if w.prompt.Some? then w.prompt.value
    else if policy.Some? then policy.value.continuation
    else DEFAULT_CONTINUATION
  }

  predicate ShowsKind(pane: string, kind: WakeupKind, now: Instant, localOffset: int)
  {
    var signal := DetectLimit(pane, now, localOffset);
    signal.Some? && KindOf(signal.value) == kind
  }

  /** What a delivery does with one due wake-up. */
  datatype Verdict = Drop | Wait | Send(prompt: string) | Park(prompt: string)

  function Decide(db: Db, w: Wakeup, io: DeliveryIo): Verdict
  {
    var policy := ReadPolicy(db, w.workspace, io.policyReadOk);
    if IsLimit(w) && !MayFire(policy) then Drop
    else
      var prompt := PromptOf(w, policy);
      if !io.sessionAlive then Park(prompt)
      else if IsLimit(w) && io.pane.None? then Wait
      else if IsLimit(w) && !ShowsKind(io.pane.value, w.kind, io.now, io.localOffset) then Drop
      else if w.workspace in db.carrying then Wait
      else if !io.peekOk || HasParked(db, w.workspace) then Wait
      else if io.sendOk then Send(prompt)
      else Park(prompt)
  }

  function ParkOn(db: Db, sid: SessionId, prompt: string): Db
    requires sid in db.sessions
  {
    db.(sessions := db.sessions[sid := db.sessions[sid].(pending := Some(prompt))])
  }

  /** The racing write, if any, lands only on an empty slot. */
  function Race(db: Db, sid: SessionId, racer: Option<string>): Db
    requires sid in db.sessions
  {
    if racer.Some? && db.sessions[sid].pending.None? then ParkOn(db, sid, racer.value) else db
  }

  function Repark(db: Db, w: Wakeup, prompt: string, io: ReparkIo): (ReparkOutcome, Db)
    requires io.latest.Some? ==> io.latest.value in db.sessions
  {
    if !io.peekOk then (Failed, db)
    else if HasParked(db, w.workspace) then (AlreadyParked, db)
    else if !io.findOk then (Failed, db)
    else if io.latest.None? then (NoSession, Log(db, NoSessionRow(w.id, w.workspace)))
    else
      var sid := io.latest.value;
      var raced := Race(db, sid, io.racer);
      if !io.writeOk then (Failed, raced)
      else if raced.sessions[sid].pending.Some? then (AlreadyParked, raced)
      else (Reparked, Log(ParkOn(raced, sid, prompt), Parked(w.id, w.workspace, sid, prompt)))
  }

  function MarkFired(db: Db, id: WakeupId): Db
  {
    if id in db.wakeups then db.(wakeups := db.wakeups[id := db.wakeups[id].(fired := true)]) else db
  }

  /** Mark a wake-up fired; a failing write ends the tick. */
  function Finish(db: Db, id: WakeupId, markOk: bool): (Db, bool)
  {
    if markOk then (MarkFired(db, id), true) else (Log(db, MarkFailed(id)), false)
  }

  function Increment(db: Db, ws: Workspace, ok: bool): Db
  {
    if ok && ws in db.policies then
      var p := db.policies[ws];
      db.(policies := db.policies[ws := p.(attemptsUsed := p.attemptsUsed + 1)])
    else Log(db, IncrementFailed(ws))
  }

  function AfterSend(db: Db, w: Wakeup, prompt: string, incrementOk: bool): Db
  {
    var sent := Log(db, Sent(w.id, w.workspace, w.kind, prompt));
    if IsLimit(w) then Increment(sent, w.workspace, incrementOk) else sent
  }

  /** One iteration of the delivery loop: the new database, and whether the loop goes on. */
  function DeliverOne(db: Db, w: Wakeup, io: DeliveryIo): (Db, bool)
    requires io.repark.latest.Some? ==> io.repark.latest.value in db.sessions
  {
    match Decide(db, w, io)
    case Drop => Finish(db, w.id, io.markOk)
    case Wait => (db, true)
    case Send(prompt) => Finish(AfterSend(db, w, prompt, io.incrementOk), w.id, io.markOk)
    case Park(prompt) =>
      var (outcome, parked) := Repark(db, w, prompt, io.repark);
      if StaysPending(outcome, IsLimit(w)) then (parked, true) else Finish(parked, w.id, io.markOk)
  }

  // ---------- Scheduling ----------

  /** `create` inserts the row and reads it back; either query can fail. */
  datatype CreateIo = Created | InsertFailed | ReadBackFailed

  datatype ScheduleIo = ScheduleIo(sessionAlive: bool, pane: Option<string>, localOffset: int, countOk: bool,
                                   create: CreateIo)

  function Insert(db: Db, ws: Workspace, fireAt: Instant, kind: WakeupKind, prompt: Option<string>): Db
  {
    db.(wakeups := db.wakeups[db.nextId := Wakeup(db.nextId, ws, fireAt, kind, prompt, false)], nextId := db.nextId + 1)
  }

  /** The limit a policy's workspace shows now, if it is to be scheduled. */
  function SignalToSchedule(p: Policy, now: Instant, io: ScheduleIo): Option<LimitSignal>
  {
    if CapReached(p) || !io.sessionAlive || io.pane.None? then None
    else DetectLimit(io.pane.value, now, io.localOffset)
  }

  function ScheduleOne(db: Db, ws: Workspace, p: Policy, now: Instant, io: ScheduleIo): (Db, bool)
  {
    var signal := SignalToSchedule(p, now, io);
    if signal.None? then (db, true)
    else if !io.countOk then (db, false)
    else if HasPending(db, ws, KindOf(signal.value)) then (db, true)
    else if io.create.InsertFailed? then (db, false)
    else (Insert(db, ws, FireAt(signal.value, now, p.retrySecs), KindOf(signal.value), None), io.create.Created?)
  }

  // ---------- The supervisor as a state machine, with the rest of the system around it ----------

  datatype EnabledPolicy = EnabledPolicy(workspace: Workspace, policy: Policy)

  datatype Phase =
    | Idle
    | Delivering(due: seq<Wakeup>, now: Instant)
    | Scheduling(todo: seq<EnabledPolicy>, now: Instant)

  datatype State = State(db: Db, phase: Phase)

  datatype Event =
    // the supervisor
    | BeginTick(now: Instant, dbNow: Instant, due: seq<Wakeup>)
    | DeliverNext(io: DeliveryIo)
    | BeginSchedule(todo: seq<EnabledPolicy>)
    | ListFails
    | ScheduleNext(scheduleIo: ScheduleIo)
    | EndTick
    // the user
    | CreateManual(workspace: Workspace, fireAt: Instant, prompt: Option<string>)
    | DeleteWakeup(id: WakeupId)
    | SavePolicy(workspace: Workspace, enabled: bool, retrySecs: int, continuation: string, maxAttempts: int,
                 deleteOk: bool)
    // another version of the program: a row whose kind this one does not know
    | CreateUnknown(workspace: Workspace, fireAt: Instant, prompt: Option<string>)
    // sessions and attaches
    | AddSession(session: SessionId, workspace: Workspace, initial: Option<string>)
    | AttachClaim(workspace: Workspace, session: SessionId)
    | AttachDone(workspace: Workspace, delivered: bool)

  /** list_due: the unfired wake-ups whose time has come, in order of time. */
  ghost predicate IsDueList(db: Db, dbNow: Instant, due: seq<Wakeup>)
  {
    && (forall i :: 0 <= i < |due| ==> due[i].id in db.wakeups && db.wakeups[due[i].id] == due[i])
    && (forall i :: 0 <= i < |due| ==> !due[i].fired && due[i].fireAt <= dbNow)
    && (forall id :: id in db.wakeups && !db.wakeups[id].fired && db.wakeups[id].fireAt <= dbNow ==>
          db.wakeups[id] in due)
    && (forall i, j :: 0 <= i < j < |due| ==> due[i].id != due[j].id && due[i].fireAt <= due[j].fireAt)
  }

  /** list_enabled: every enabled policy once. */
  ghost predicate IsEnabledList(db: Db, todo: seq<EnabledPolicy>)
  {
    && (forall i :: 0 <= i < |todo| ==>
          && todo[i].workspace in db.policies && db.policies[todo[i].workspace] == todo[i].policy
          && todo[i].policy.enabled)
    && (forall ws :: ws in db.policies && db.policies[ws].enabled ==> EnabledPolicy(ws, db.policies[ws]) in todo)
    && (forall i, j :: 0 <= i < j < |todo| ==> todo[i].workspace != todo[j].workspace)
  }

  /** find_latest_by_workspace_id answers with a row of the workspace, or none when it has none. */
  ghost predicate LatestIsHonest(db: Db, ws: Workspace, latest: Option<SessionId>)
  {
    if latest.Some? then latest.value in db.sessions && db.sessions[latest.value].workspace == ws
    else !HasSession(db, ws)
  }

  ghost predicate Enabled(s: State, e: Event)
  {
    match e
    case BeginTick(_, dbNow, due) => s.phase.Idle? && IsDueList(s.db, dbNow, due)
    case DeliverNext(io) =>
      s.phase.Delivering? && s.phase.due != [] && LatestIsHonest(s.db, s.phase.due[0].workspace, io.repark.latest)
    case BeginSchedule(todo) => s.phase.Delivering? && s.phase.due == [] && IsEnabledList(s.db, todo)
    case ListFails => s.phase.Delivering? && s.phase.due == []
    case ScheduleNext(_) => s.phase.Scheduling? && s.phase.todo != []
    case EndTick => s.phase.Scheduling? && s.phase.todo == []
    case AddSession(sid, _, _) => sid !in s.db.sessions
    case AttachClaim(ws, sid) =>
      && ws !in s.db.carrying && sid in s.db.sessions
      && s.db.sessions[sid].workspace == ws && s.db.sessions[sid].pending.Some?
    case AttachDone(ws, _) => ws in s.db.carrying
    case _ => true
  }

  /** Saving a policy re-arms it; disabling then deletes every pending wake-up of the workspace. */
  function SavePolicyIn(db: Db, ws: Workspace, p: Policy, deleteOk: bool): Db
  {
    var saved := Log(db.(policies := db.policies[ws := p]), PolicySaved(ws, p.enabled, !p.enabled && deleteOk));
    if p.enabled || !deleteOk then saved
    else
      saved.(wakeups := map id | id in db.wakeups && (db.wakeups[id].workspace != ws || db.wakeups[id].fired) ::
                          db.wakeups[id])
  }

  /** A confirmed attach clears the slot only while it still holds the delivered prompt. */
  function FinishAttach(db: Db, ws: Workspace, delivered: bool): Db
    requires ws in db.carrying
  {
    var c := db.carrying[ws];
    var released := db.(carrying := db.carrying - {ws});
    if !delivered then released
    else
      var cleared :=
        if c.session in db.sessions && db.sessions[c.session].pending == Some(c.prompt)
        then released.(sessions := db.sessions[c.session := db.sessions[c.session].(pending := None)])
        else released;
      Log(cleared, AttachDelivered(c.session, c.prompt))
  }

  ghost function Step(s: State, e: Event): State
    requires Enabled(s, e)
  {
    match e
    case BeginTick(now, _, due) => s.(phase := Delivering(due, now))
    case DeliverNext(io) =>
      var (db, ok) := DeliverOne(s.db, s.phase.due[0], io);
      State(db, if ok then Delivering(s.phase.due[1..], s.phase.now) else Idle)
    case BeginSchedule(todo) => s.(phase := Scheduling(todo, s.phase.now))
    case ListFails => s.(phase := Idle)
    case ScheduleNext(io) =>
      var head := s.phase.todo[0];
      var (db, ok) := ScheduleOne(s.db, head.workspace, head.policy, s.phase.now, io);
      State(db, if ok then Scheduling(s.phase.todo[1..], s.phase.now) else Idle)
    case EndTick => s.(phase := Idle)
    case CreateManual(ws, fireAt, prompt) => s.(db := Insert(s.db, ws, fireAt, Manual, prompt))
    case CreateUnknown(ws, fireAt, prompt) => s.(db := Insert(s.db, ws, fireAt, Unknown, prompt))
    case DeleteWakeup(id) => s.(db := Log(s.db.(wakeups := s.db.wakeups - {id}), Cancelled(id)))
    case SavePolicy(ws, enabled, retrySecs, continuation, maxAttempts, deleteOk) =>
      s.(db := SavePolicyIn(s.db, ws, Policy(enabled, retrySecs, continuation, maxAttempts, 0), deleteOk))
    case AddSession(sid, ws, initial) => s.(db := s.db.(sessions := s.db.sessions[sid := SessionRow(ws, initial)]))
    case AttachClaim(ws, sid) =>
      s.(db := s.db.(carrying := s.db.carrying[ws := Carry(sid, s.db.sessions[sid].pending.value)]))
    case AttachDone(ws, delivered) => s.(db := FinishAttach(s.db, ws, delivered))
  }

  const EMPTY := Db(map[], map[], map[], map[], 0, [])

  /** A run of the system from an empty database, with any interleaving of its steps. */
  ghost predicate IsRun(states: seq<State>, events: seq<Event>)
  {
    && |states| == |events| + 1
    && states[0] == State(EMPTY, Idle)
    && forall i :: 0 <= i < |events| ==> Enabled(states[i], events[i]) && states[i + 1] == Step(states[i], events[i])
  }
}
