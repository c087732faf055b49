/** The managed gateway as a state machine: one function per handler that runs under the lock.

    A handler may be cut short by its transport. `fuel` is the number of socket writes the
    transport still takes; the write that finds none is attempted, sets `failed`, and everything
    the handler would still have done is skipped, as the raised exception skips it. */
module GatewayModel {
  import opened Prelude
  import opened GatewayLog

  const MAX_CONTEXT_BYTES: nat := 2048

  /** Whether the rendered completion context is within its limit. */
  predicate Fits(id: DeliveryId) {
    id.identity.receipt.contextBytes <= MAX_CONTEXT_BYTES
  }

  datatype Item = Completion(id: DeliveryId) | Manual(key: Key, thread: ThreadId)

  /** A request the gateway wrote and whose answer it has not read. */
  datatype Flight =
    | Steering(id: DeliveryId)
    | Starting(id: DeliveryId, deferred: bool)
    | ManualSteering(key: Key, thread: ThreadId)

  datatype TuiRequest = TurnStart(thread: ThreadId) | ThreadOpen(thread: ThreadId) | OtherRequest

  datatype ThreadState = ThreadState(
    active: Name,
    steerReady: bool,
    pendingStart: Option<Key>,
    queued: seq<Item>,
    idle: seq<DeliveryId>)

  const FRESH_THREAD := ThreadState(NO_NAME, false, None, [], [])

  datatype State = State(
    ledger: map<DeliveryId, Row>,
    live: bool,
    current: ThreadId,
    threads: map<ThreadId, ThreadState>,
    tui: map<Key, TuiRequest>,
    internal: map<Key, Flight>,
    waiting: set<DeliveryId>,
    nextKey: nat,
    fuel: nat,
    failed: bool,
    log: seq<Effect>)

  datatype UpstreamMethod = TurnStarted | TurnCompleted | OtherMethod

  datatype Message = Message(
    key: Option<Key>,
    hasResult: bool,
    hasError: bool,
    kind: UpstreamMethod,
    thread: ThreadId,
    turn: Name)

  /* ---- The durable ledger ---- */

  datatype LedgerError = TransitionConflict | IdentityConflict

  predicate Allowed(rows: map<DeliveryId, Row>, id: DeliveryId, to: RowState) {
    if id !in rows then to == Prepared
    else
      match rows[id].state
      case Prepared => to in {Prepared, Sent, Rejected}
      case Sent => to in {Sent, Accepted, Rejected}
      case Accepted => to == Accepted
      case Rejected => to == Rejected
  }

  function Transition(rows: map<DeliveryId, Row>, id: DeliveryId, to: RowState, identity: Identity,
                      action: RowAction, reason: Reason): Result<map<DeliveryId, Row>, LedgerError>
  {
    if !Allowed(rows, id, to) then Err(TransitionConflict)
    else if id in rows && rows[id].identity != identity then Err(IdentityConflict)
    else
      var kept := if action == NoAction && id in rows then rows[id].action else action;
      Ok(rows[id := Row(to, identity, kept, reason)])
  }

  /* ---- Small steps ---- */

  function Emit(s: State, e: Effect): State {
    s.(log := s.log + [e])
  }

  function Transport(s: State): State {
    if s.fuel == 0 then s.(failed := true) else s.(fuel := s.fuel - 1)
  }

  function Thread(s: State, t: ThreadId): ThreadState {
    if t in s.threads then s.threads[t] else FRESH_THREAD
  }

  function SetThread(s: State, t: ThreadId, th: ThreadState): State {
    s.(threads := s.threads[t := th])
  }

  function SetActive(s: State, t: ThreadId, turn: Name): State {
    Emit(SetThread(s, t, Thread(s, t).(active := turn)), Active(t, turn))
  }

  /** The ledger commit of a handler; a refused transition raises. */
  function Commit(s: State, id: DeliveryId, to: RowState, action: RowAction, reason: Reason): State {
    match Transition(s.ledger, id, to, id.identity, action, reason)
    case Ok(rows) => Emit(s.(ledger := rows), Persist(id, rows[id]))
    case Err(_) => s.(failed := true)
  }

  function RowActionOf(action: Action): RowAction {
    if action.Steer? then BySteer else ByStart
  }

  /** Files a flight under the next id of the gateway's own. */
  function FileFlight(s: State, flight: Flight): State {
    s.(nextKey := s.nextKey + 1, internal := s.internal[Managed(s.nextKey) := flight])
  }

  function SetPending(s: State, t: ThreadId, k: Key): State {
    SetThread(s, t, Thread(s, t).(steerReady := false, pendingStart := Some(k)))
  }

  /** The row is committed as sent before the request is written. */
  function CommitAndSend(s: State, id: DeliveryId, action: Action, k: Key): State {
    var s1 := Commit(s, id, Sent, RowActionOf(action), NoReason);
    if s1.failed then s1 else Transport(Emit(s1, Send(id, action, k)))
  }

  function SendCompletion(s: State, id: DeliveryId, action: Action, deferred: bool): State {
    if s.failed then s
    else
      var k := Managed(s.nextKey);
      var s1 := FileFlight(s, if action.Steer? then Steering(id) else Starting(id, deferred));
      if !Fits(id) then s1.(failed := true)
      else CommitAndSend(if action.Start? then SetPending(s1, id.identity.thread, k) else s1, id, action, k)
  }

  function SendManualSteer(s: State, key: Key, t: ThreadId): State {
    if s.failed then s
    else
      Transport(Emit(FileFlight(s, ManualSteering(key, t)), SendManual(Managed(s.nextKey), t, Steer, key)))
  }

  function TellTui(s: State, key: Option<Key>): State {
    if s.failed then s
    else Transport(if key.Some? then Emit(s, Told(key.value)) else s)
  }

  function Accept(s: State, id: DeliveryId, action: RowAction): State {
    var s1 := Commit(s, id, Accepted, action, NoReason);
    Emit(s1.(failed := s.failed, waiting := s.waiting - {id}),
         Reply(id, if s1.failed then SaysAmbiguous else SaysAccepted))
  }

  function Reject(s: State, id: DeliveryId, reason: Reason): State {
    var s1 := Commit(s, id, Rejected, NoAction, reason);
    Emit(s1.(failed := s.failed, waiting := s.waiting - {id}), Reply(id, SaysRejected))
  }

  function FailItem(s: State, item: Item, reason: Reason): State {
    if s.failed then s
    else
      match item
      case Manual(key, _) => TellTui(s, Some(key))
      case Completion(id) => Reject(s, id, reason)
  }

  function FailItems(s: State, items: seq<Item>, reason: Reason): State
    decreases |items|
  {
    if items == [] then s else FailItems(FailItem(s, items[0], reason), items[1..], reason)
  }

  function TakeQueue(s: State, t: ThreadId): State {
    SetThread(s, t, Thread(s, t).(queued := []))
  }

  function FailQueued(s: State, t: ThreadId, reason: Reason): State {
    FailItems(TakeQueue(s, t), Thread(s, t).queued, reason)
  }

  function SteerItem(s: State, item: Item): State {
    match item
    case Manual(key, t) => SendManualSteer(s, key, t)
    case Completion(id) => SendCompletion(s, id, Steer, false)
  }

  function SteerItems(s: State, items: seq<Item>): State
    decreases |items|
  {
    if items == [] then s else SteerItems(SteerItem(s, items[0]), items[1..])
  }

  function Drain(s: State, t: ThreadId): State {
    if Thread(s, t).active == NO_NAME then FailQueued(s, t, ActiveTurnMissing)
    else SteerItems(TakeQueue(s, t), Thread(s, t).queued)
  }

  function StartNextIdle(s: State, t: ThreadId): State {
    var th := Thread(s, t);
    if th.active != NO_NAME || th.pendingStart.Some? || th.idle == [] then s
    else SendCompletion(SetThread(s, t, th.(idle := th.idle[1..])), th.idle[0], Start, true)
  }

  /* ---- Handlers ---- */

  /** Steer into the running turn, queue behind it, or start a turn. */
  function PlaceTurn(s: State, key: Key, t: ThreadId): State {
    var th := Thread(s, t);
    if th.active != NO_NAME && th.steerReady then SendManualSteer(s, key, t)
    else if th.active != NO_NAME || th.pendingStart.Some? then SetThread(s, t, th.(queued := th.queued + [Manual(key, t)]))
    else
      var s2 := SetPending(s, t, key);
      Transport(Emit(s2.(tui := s2.tui[key := TurnStart(t)]), SendManual(key, t, Start, key)))
  }

  function ManualStart(s: State, key: Key, t: ThreadId): State {
    var s0 := Emit(s, Asked(key, true));
    PlaceTurn(SetThread(s0.(current := t), t, Thread(s0, t)), key, t)
  }

  function Forward(s: State, key: Option<Key>, request: TuiRequest): State {
    match key
    case Some(k) => Transport(Emit(s.(tui := s.tui[k := request]), Asked(k, false)))
    case None => Transport(s)
  }

  function StartAnswered(s: State, id: DeliveryId, deferred: bool, m: Message): State {
    var t := id.identity.thread;
    var s1 := SetThread(s, t, Thread(s, t).(pendingStart := None));
    if m.hasError then FailQueued(Reject(s1, id, TurnStartRejected), t, CompletionStartRejected)
    else if m.turn == NO_NAME then
      FailQueued(Reject(s1, id, TurnStartInvalid), t, CompletionStartInvalid)
    else
      var s2 := Accept(SetActive(s1, t, m.turn), id, if deferred then ByStartAfterRefusal else ByStart);
      if Thread(s2, t).steerReady then Drain(s2, t) else s2
  }

  function SteerAnswered(s: State, id: DeliveryId, m: Message): State {
    var t := id.identity.thread;
    var th := Thread(s, t);
    if m.hasError then StartNextIdle(SetThread(s, t, th.(idle := th.idle + [id])), t)
    else
      var s1 := SetThread(s, t, th);
      if m.turn != NO_NAME && m.turn != th.active then Reject(s1, id, SteerIdMismatch)
      else Accept(s1, id, BySteer)
  }

  function InternalAnswered(s: State, k: Key, m: Message): State
    requires k in s.internal
  {
    var s1 := s.(internal := s.internal - {k});
    match s.internal[k]
    case Starting(id, deferred) => StartAnswered(Emit(s1, Heard(id, k, !m.hasError)), id, deferred, m)
    case Steering(id) => SteerAnswered(Emit(s1, Heard(id, k, !m.hasError)), id, m)
    case ManualSteering(key, t) => TellTui(SetThread(Emit(s1, HeardManual(k)), t, Thread(s, t)), Some(key))
  }

  function ManualStartAnswered(s: State, k: Key, t: ThreadId, m: Message): State {
    var th := Thread(s, t);
    var s1 := SetThread(s, t, if th.pendingStart == Some(k) then th.(pendingStart := None) else th);
    if m.hasError then FailQueued(s1, t, ManualStartRejected)
    else if m.turn == NO_NAME then FailQueued(s1, t, ManualStartInvalid)
    else
      var s2 := SetActive(s1, t, m.turn);
      if Thread(s2, t).steerReady then Drain(s2, t) else s2
  }

  function TuiAnswered(s: State, k: Key, m: Message): State
    requires k in s.tui
  {
    var s1 := Emit(s.(tui := s.tui - {k}), HeardManual(k));
    match s.tui[k]
    case TurnStart(t) => ManualStartAnswered(s1, k, t, m)
    case ThreadOpen(asked) =>
      var t := if m.thread != NO_NAME then m.thread else asked;
      if m.hasError || t == NO_NAME then s1 else SetThread(s1.(current := t), t, Thread(s1, t))
    case OtherRequest => s1
  }

  function Started(s: State, t: ThreadId, turn: Name): State {
    if t == NO_NAME || turn == NO_NAME then s
    else
      var s1 := SetActive(s.(current := t), t, turn);
      var s2 := SetThread(s1, t, Thread(s1, t).(steerReady := true));
      var th := Thread(s2, t);
      if th.pendingStart.None? && th.queued != [] then Drain(s2, t) else s2
  }

  function Completed(s: State, t: ThreadId, turn: Name): State {
    if t !in s.threads || (turn != NO_NAME && s.threads[t].active != turn) then s
    else
      var s1 := SetActive(s, t, NO_NAME);
      StartNextIdle(SetThread(s1, t, Thread(s1, t).(steerReady := false)), t)
  }

  function Upstream(s: State, m: Message): State {
    if m.key.Some? && m.key.value in s.internal then InternalAnswered(s, m.key.value, m)
    else if m.key.Some? && (m.hasResult || m.hasError) then
      TellTui(if m.key.value in s.tui then TuiAnswered(s, m.key.value, m) else s, m.key)
    else
      var s1 := match m.kind
                case TurnStarted => Started(s, m.thread, m.turn)
                case TurnCompleted => Completed(s, m.thread, m.turn)
                case OtherMethod => s;
      TellTui(s1, None)
  }

  /** Steer into the running turn, queue behind it, or start a turn. */
  function PlaceDelivery(s: State, id: DeliveryId): State {
    var t := id.identity.thread;
    var th := Thread(s, t);
    if th.active != NO_NAME && th.steerReady then SendCompletion(s, id, Steer, false)
    else if th.active != NO_NAME || th.pendingStart.Some? then SetThread(s, t, th.(queued := th.queued + [Completion(id)]))
    else SendCompletion(s, id, Start, false)
  }

  /** The delivery as it enters the handler: row prepared, entered in the pending table. */
  function Admitted(s: State, id: DeliveryId): State {
    (if id in s.ledger then s else Commit(s, id, Prepared, NoAction, NoReason)).(waiting := s.waiting + {id})
  }

  function Enter(s: State, id: DeliveryId): State {
    var s1, t := Admitted(s, id), id.identity.thread;
    PlaceDelivery(SetThread(s1, t, Thread(s1, t)), id)
  }

  /** What a delivery is told without entering the handler's tables; a `sent` one that is still
      pending is told later. */
  function Turned(s: State, id: DeliveryId): Option<State> {
    if id in s.ledger && s.ledger[id].state == Accepted then Some(Emit(s, Reply(id, SaysAccepted)))
    else if id in s.ledger && s.ledger[id].state == Sent then
      Some(if id in s.waiting then s else Emit(s, Reply(id, SaysAmbiguous)))
    else if id in s.ledger && s.ledger[id].state == Rejected then Some(Emit(s, Reply(id, SaysRejected)))
    else if !s.live then Some(Emit(s, Reply(id, SaysRetryable)))
    else if s.current != id.identity.thread then Some(Emit(s, Reply(id, SaysRejected)))
    else None
  }

  function Deliver(s: State, id: DeliveryId): State {
    match Turned(s, id)
    case Some(answered) => answered
    case None => Enter(s, id)
  }

  function Cleared(s: State): State {
    s.(live := false, current := NO_NAME, threads := map[], tui := map[], internal := map[], waiting := {})
  }

  function HangupReplies(s: State): map<DeliveryId, Status> {
    map id | id in s.waiting :: if id in s.ledger && s.ledger[id].state == Sent then SaysAmbiguous else SaysRetryable
  }

  function Disconnect(s: State): State {
    if s.live then Emit(Cleared(s), Boundary(HangupReplies(s))) else s
  }

  function Connect(s: State): State {
    if s.live then s else Cleared(s).(live := true)
  }

  /* ---- Events ---- */

  datatype Call =
    | DoConnect
    | DoDisconnect
    | TuiTurnStart(key: Key, thread: ThreadId)
    | TuiBadTurnStart
    | TuiForward(forwarded: Option<Key>, request: TuiRequest)
    | FromUpstream(message: Message)
    | DoDeliver(id: DeliveryId)
    | WaitExpired(expired: DeliveryId)

  function Handle(s: State, call: Call): State {
    match call
    case DoConnect => Connect(s)
    case DoDisconnect => Disconnect(s)
    case TuiTurnStart(key, t) => if s.live then ManualStart(s, key, t) else s
    case TuiBadTurnStart => if s.live then Transport(s) else s
    case TuiForward(key, request) => if s.live then Forward(s, key, request) else s
    case FromUpstream(m) => if s.live then Upstream(s, m) else s
    case DoDeliver(id) => Deliver(s, id)
    case WaitExpired(id) => Emit(s, Reply(id, SaysAmbiguous))
  }

  /** What follows a handler that raised: a control request answers `rejected` and leaves the
      connection up; the TUI and upstream loops disconnect their epoch. */
  function Settle(s: State, call: Call): State {
    if !s.failed then s
    else
      match call
      case DoDeliver(id) => Emit(s.(failed := false), Reply(id, SaysRejected))
      case _ => Disconnect(s.(failed := false))
  }

  function Perform(s: State, call: Call, fuel: nat): State {
    Settle(Handle(s.(fuel := fuel, failed := false), call), call)
  }

  /** A restarted process knows the log only through the ledger. */
  function Restart(log: seq<Effect>): State {
    State(Replay(log), false, NO_NAME, map[], map[], map[], {}, 1, 0, false, log)
  }

  datatype Event = Run(call: Call, fuel: nat) | Crash(call: Call, fuel: nat, keep: nat)

  function FirstEffects(log: seq<Effect>, n: nat): seq<Effect> {
    if n <= |log| then log[..n] else log
  }

  /** A crash lets the first `keep` effects of the running call happen and loses everything else. */
  function Step(s: State, e: Event): State {
    match e
    case Run(call, fuel) => Perform(s, call, fuel)
    case Crash(call, fuel, keep) =>
      Restart(FirstEffects(Perform(s, call, fuel).log, |s.log| + keep) + [Boundary(map[])])
  }

  function Continue(s: State, events: seq<Event>): State
    decreases |events|
  {
    if events == [] then s else Continue(Step(s, events[0]), events[1..])
  }

  const START := Restart([])
}
