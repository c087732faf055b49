/** What each event comes to, told in what the outside sees and where the work is then kept. */
module GatewayOutcomes {
  import opened Prelude
  import opened GatewayLog
  import opened GatewayModel
  import opened GatewayPlaces
  import opened GatewayInvariant
  import opened GatewayHandlers
  import opened GatewayRuns
  import opened GatewayRedelivery
  import opened GatewayQueues

  /** The row committed before a request of that kind is written. */
  function RowFor(id: DeliveryId, action: Action): Row {
    Row(Sent, id.identity, match action case Steer => BySteer case Start => ByStart, NoReason)
  }

  /** Commit, then write: the two effects of sending a completion. */
  function Writing(id: DeliveryId, action: Action, key: Key): seq<Effect> {
    [Persist(id, RowFor(id, action)), Send(id, action, key)]
  }

  /** Nothing but the named thread, the flights, the ledger and the log may have changed. */
  ghost predicate ElseSame(s: State, l: State, t: ThreadId) {
    && l.live == s.live && l.current == s.current && l.tui == s.tui
    && forall u :: u != t ==> Thread(l, u) == Thread(s, u)
  }

  lemma StartForm(s: State, d: DeliveryId, deferred: bool)
    requires !s.failed && s.fuel > 0 && CanSend(s.ledger, d)
    ensures var k := Managed(s.nextKey);
            var t := d.identity.thread;
            SendCompletion(s, d, Start, deferred) ==
            s.(nextKey := s.nextKey + 1, internal := s.internal[k := Starting(d, deferred)], ledger := s.ledger[d := RowFor(d, Start)],
               threads := s.threads[t := Thread(s, t).(steerReady := false, pendingStart := Some(k))],
               fuel := s.fuel - 1, log := s.log + Writing(d, Start, k))
  {
    var k := Managed(s.nextKey);
    assert Transition(s.ledger, d, Sent, d.identity, ByStart, NoReason) == Ok(s.ledger[d := RowFor(d, Start)]);
    assert s.log + [Persist(d, RowFor(d, Start))] + [Send(d, Start, k)] == s.log + Writing(d, Start, k);
  }

  lemma SteerForm(s: State, d: DeliveryId)
    requires !s.failed && s.fuel > 0 && CanSend(s.ledger, d)
    ensures var k := Managed(s.nextKey);
            SendCompletion(s, d, Steer, false) ==
            s.(nextKey := s.nextKey + 1, internal := s.internal[k := Steering(d)], ledger := s.ledger[d := RowFor(d, Steer)],
               fuel := s.fuel - 1, log := s.log + Writing(d, Steer, k))
  {
    var k := Managed(s.nextKey);
    SendForm(s, d);
    assert s.log + [Persist(d, RowFor(d, Steer))] + [Send(d, Steer, k)] == s.log + Writing(d, Steer, k);
  }

  /** A handler that does not raise is the whole call. */
  lemma Unfailed(s: State, call: Call, fuel: nat, l: State)
    requires l == Handle(s.(fuel := fuel, failed := false), call) && !l.failed
    ensures Perform(s, call, fuel) == l
  {
  }

  lemma AnswerGoes(s: State, m: Message, k: Key)
    requires m.key == Some(k) && k in s.internal
    ensures Upstream(s, m) == InternalAnswered(s, k, m)
  {
  }

  /* ---- Idle completions ---- */

  /** What a thread does with the completions that wait for it to be idle: the longest-waiting one is
      started if the thread has neither an active turn nor an unanswered start, and nothing happens
      otherwise. `before` is the log so far and `waiting` the whole list. */
  ghost predicate IdleServed(before: seq<Effect>, s: State, l: State, t: ThreadId, waiting: seq<DeliveryId>, active: Name) {
    if active == NO_NAME && Thread(s, t).pendingStart.None? && waiting != [] then
      var key := Managed(s.nextKey);
      && l.log == before + Writing(waiting[0], Start, key)
      && Thread(l, t).idle == waiting[1..] && Thread(l, t).pendingStart == Some(key)
      && key in l.internal && l.internal[key] == Starting(waiting[0], true)
    else l.log == before && Thread(l, t).idle == waiting && Thread(l, t).pendingStart == Thread(s, t).pendingStart
  }

  /** A flight upstream can answer was written, so its completion is sent and fits. */
  lemma FlightFacts(s: State, k: Key)
    requires Inv(s, []) && k in s.internal && k in WrittenKeys(s.log) && !s.internal[k].ManualSteering?
    ensures CanSend(s.ledger, s.internal[k].id) && s.ledger[s.internal[k].id].state == Sent
  {
    var id := s.internal[k].id;
    assert At(s, [], InFlight(k)) == Some(Delivery(id));
    assert StageAt(s, InFlight(k), id);
    StageFacts(s.log, id);
  }

  lemma IdleFacts(s: State, t: ThreadId, i: nat)
    requires Inv(s, []) && i < |Thread(s, t).idle|
    ensures var d := Thread(s, t).idle[i]; CanSend(s.ledger, d) && s.ledger[d].state == Sent && d.identity.thread == t
  {
    var d := Thread(s, t).idle[i];
    assert At(s, [], InIdle(t, i)) == Some(Delivery(d));
    assert StageAt(s, InIdle(t, i), d);
    StageFacts(s.log, d);
  }

  lemma NextIdle(s: State, t: ThreadId)
    requires !s.failed && s.fuel > 0 && IdleSendable(s, t)
    ensures var l := StartNextIdle(s, t);
            && !l.failed && l.fuel + 1 >= s.fuel && IdleServed(s.log, s, l, t, Thread(s, t).idle, Thread(s, t).active) && ElseSame(s, l, t)
            && Thread(l, t).active == Thread(s, t).active && Thread(l, t).queued == Thread(s, t).queued
            && l.waiting == s.waiting
  {
    var th := Thread(s, t);
    if th.active == NO_NAME && th.pendingStart.None? && th.idle != [] {
      StartForm(SetThread(s, t, th.(idle := th.idle[1..])), th.idle[0], true);
    }
  }

  predicate IdleSendable(s: State, t: ThreadId) {
    forall i :: 0 <= i < |Thread(s, t).idle| ==> CanSend(s.ledger, Thread(s, t).idle[i]) && Thread(s, t).idle[i].identity.thread == t
  }

  lemma IdleIsSendable(s: State, t: ThreadId)
    requires Inv(s, [])
    ensures IdleSendable(s, t)
  {
    forall i | 0 <= i < |Thread(s, t).idle| ensures CanSend(s.ledger, Thread(s, t).idle[i]) && Thread(s, t).idle[i].identity.thread == t {
      IdleFacts(s, t, i);
    }
  }

  lemma SendableSame(a: State, b: State, t: ThreadId)
    requires IdleSendable(a, t) && b.ledger == a.ledger && Thread(b, t).idle == Thread(a, t).idle
    ensures IdleSendable(b, t)
  {
  }

  /** The refused completion behind the waiting ones, and its flight over. */
  function Joined(s: State, k: Key, id: DeliveryId): State {
    var t := id.identity.thread;
    var s1 := Emit(s.(internal := s.internal - {k}), Heard(id, k, false));
    SetThread(s1, t, Thread(s1, t).(idle := Thread(s1, t).idle + [id]))
  }

  lemma JoinedParts(s: State, k: Key, id: DeliveryId)
    ensures var j, t := Joined(s, k, id), id.identity.thread;
            && j.log == s.log + [Heard(id, k, false)] && j.internal == s.internal - {k} && j.ledger == s.ledger && j.nextKey == s.nextKey
            && j.fuel == s.fuel && j.failed == s.failed && j.waiting == s.waiting && j.live == s.live
            && Thread(j, t) == Thread(s, t).(idle := Thread(s, t).idle + [id]) && ElseSame(s, j, t)
  {
  }

  lemma RefusedForm(s: State, k: Key, id: DeliveryId, m: Message)
    requires k in s.internal && s.internal[k] == Steering(id) && m.hasError
    ensures InternalAnswered(s, k, m) == StartNextIdle(Joined(s, k, id), id.identity.thread)
  {
  }

  lemma ServedSame(before: seq<Effect>, s: State, j: State, l: State, t: ThreadId, waiting: seq<DeliveryId>, active: Name)
    requires IdleServed(before, j, l, t, waiting, active) && j.nextKey == s.nextKey && Thread(j, t).pendingStart == Thread(s, t).pendingStart
    ensures IdleServed(before, s, l, t, waiting, active)
  {
  }

  lemma ElseSameTrans(s: State, j: State, l: State, t: ThreadId)
    requires ElseSame(s, j, t) && ElseSame(j, l, t)
    ensures ElseSame(s, l, t)
  {
  }

  /** A refused steer: the completion joins the waiting ones, and the longest-waiting of all is
      started at once if the thread is idle. */
  lemma RefusedSteer(s: State, k: Key, id: DeliveryId, m: Message)
    requires Inv(s, []) && m.key == Some(k) && k in s.internal && k in WrittenKeys(s.log) && s.internal[k] == Steering(id)
    requires m.hasError && !s.failed && s.fuel > 0
    ensures var l, t := Upstream(s, m), id.identity.thread;
            && !l.failed && ElseSame(s, l, t) && l.waiting == s.waiting
            && IdleServed(s.log + [Heard(id, k, false)], s, l, t, Thread(s, t).idle + [id], Thread(s, t).active)
            && Thread(l, t).active == Thread(s, t).active && Thread(l, t).queued == Thread(s, t).queued
  {
    var t := id.identity.thread;
    FlightFacts(s, k);
    IdleIsSendable(s, t);
    var j := Joined(s, k, id);
    JoinedParts(s, k, id);
    JoinedSendable(s, j, t, id);
    NextIdle(j, t);
    var l := StartNextIdle(j, t);
    AnswerGoes(s, m, k);
    RefusedForm(s, k, id, m);
    ServedSame(j.log, s, j, l, t, Thread(j, t).idle, Thread(j, t).active);
    ElseSameTrans(s, j, l, t);
  }

  lemma JoinedSendable(s: State, j: State, t: ThreadId, id: DeliveryId)
    requires IdleSendable(s, t) && CanSend(s.ledger, id) && id.identity.thread == t && j.ledger == s.ledger
    requires Thread(j, t).idle == Thread(s, t).idle + [id]
    ensures IdleSendable(j, t)
  {
  }

  function Ended(s: State, t: ThreadId): State {
    var s1 := SetActive(s, t, NO_NAME);
    SetThread(s1, t, Thread(s1, t).(steerReady := false))
  }

  lemma EndedParts(s: State, t: ThreadId)
    ensures var j := Ended(s, t);
            && j.log == s.log + [Active(t, NO_NAME)] && j.internal == s.internal && j.ledger == s.ledger && j.nextKey == s.nextKey
            && j.fuel == s.fuel && j.failed == s.failed && j.waiting == s.waiting && j.live == s.live
            && Thread(j, t) == Thread(s, t).(active := NO_NAME, steerReady := false) && ElseSame(s, j, t)
  {
  }

  lemma EndedForm(s: State, m: Message)
    requires !(m.key.Some? && (m.key.value in s.internal || m.hasResult || m.hasError))
    requires m.kind == TurnCompleted && m.thread in s.threads && (m.turn == NO_NAME || m.turn == Thread(s, m.thread).active)
    ensures Upstream(s, m) == TellTui(StartNextIdle(Ended(s, m.thread), m.thread), None)
  {
  }

  lemma ToldForm(l: State)
    requires !l.failed && l.fuel > 0
    ensures TellTui(l, None) == l.(fuel := l.fuel - 1)
  {
  }

  lemma FuelApart(before: seq<Effect>, s: State, l: State, t: ThreadId, waiting: seq<DeliveryId>, fuel: nat)
    requires IdleServed(before, s, l, t, waiting, NO_NAME) && ElseSame(s, l, t)
    ensures IdleServed(before, s, l.(fuel := fuel), t, waiting, NO_NAME) && ElseSame(s, l.(fuel := fuel), t)
    ensures Thread(l.(fuel := fuel), t) == Thread(l, t)
  {
    assert forall u :: Thread(l.(fuel := fuel), u) == Thread(l, u);
  }

  /** The end of the running turn: the thread is idle, and its longest-waiting completion is started. */
  lemma TurnEnded(s: State, m: Message)
    requires Inv(s, []) && !(m.key.Some? && (m.key.value in s.internal || m.hasResult || m.hasError))
    requires m.kind == TurnCompleted && m.thread in s.threads && (m.turn == NO_NAME || m.turn == Thread(s, m.thread).active)
    requires !s.failed && s.fuel > 1
    ensures var l, t := Upstream(s, m), m.thread;
            && !l.failed && ElseSame(s, l, t) && l.waiting == s.waiting
            && IdleServed(s.log + [Active(t, NO_NAME)], s, l, t, Thread(s, t).idle, NO_NAME)
            && Thread(l, t).active == NO_NAME && Thread(l, t).queued == Thread(s, t).queued
  {
    var t := m.thread;
    IdleIsSendable(s, t);
    var j := Ended(s, t);
    EndedParts(s, t);
    SendableSame(s, j, t);
    NextIdle(j, t);
    var l := StartNextIdle(j, t);
    EndedForm(s, m);
    ToldForm(l);
    ServedSame(j.log, s, j, l, t, Thread(j, t).idle, NO_NAME);
    ElseSameTrans(s, j, l, t);
    FuelApart(j.log, s, l, t, Thread(s, t).idle, l.fuel - 1);
  }

  /** Only the transport was used. */
  ghost predicate Untouched(s: State, l: State) {
    && !l.failed && l.log == s.log && l.live == s.live && l.threads == s.threads && l.internal == s.internal && l.tui == s.tui
    && l.waiting == s.waiting && l.current == s.current
  }

  /** The end of any other turn changes nothing. */
  lemma OtherTurnEnded(s: State, m: Message)
    requires !(m.key.Some? && (m.key.value in s.internal || m.hasResult || m.hasError))
    requires m.kind == TurnCompleted && (m.thread !in s.threads || (m.turn != NO_NAME && m.turn != Thread(s, m.thread).active))
    requires !s.failed && s.fuel > 0
    ensures Untouched(s, Upstream(s, m))
  {
  }

  /* ---- Announced turns ---- */

  /** The start of a turn: it becomes the active one of its thread, which becomes current and ready
      for steering. While a start is unanswered nothing else happens. */
  lemma TurnAnnounced(s: State, m: Message)
    requires !(m.key.Some? && (m.key.value in s.internal || m.hasResult || m.hasError))
    requires m.kind == TurnStarted && m.thread != NO_NAME && m.turn != NO_NAME && !s.failed && s.fuel > 0
    requires Thread(s, m.thread).pendingStart.Some? || Thread(s, m.thread).queued == []
    ensures var l, t := Upstream(s, m), m.thread;
            && !l.failed && l.live == s.live && l.current == t && l.log == s.log + [Active(t, m.turn)]
            && Thread(l, t) == Thread(s, t).(active := m.turn, steerReady := true)
            && (forall u :: u != t ==> Thread(l, u) == Thread(s, u))
            && l.internal == s.internal && l.tui == s.tui && l.waiting == s.waiting
  {
    NoticeGoes(s, m);
    AnnouncedForm(s, m.thread, m.turn);
  }

  lemma NoticeGoes(s: State, m: Message)
    requires !(m.key.Some? && (m.key.value in s.internal || m.hasResult || m.hasError)) && m.kind == TurnStarted
    ensures Upstream(s, m) == TellTui(Started(s, m.thread, m.turn), None)
  {
  }

  lemma AnnouncedForm(s: State, t: ThreadId, turn: Name)
    requires t != NO_NAME && turn != NO_NAME && !s.failed && s.fuel > 0
    requires Thread(s, t).pendingStart.Some? || Thread(s, t).queued == []
    ensures TellTui(Started(s, t, turn), None) ==
            s.(current := t, threads := s.threads[t := Thread(s, t).(active := turn, steerReady := true)], log := s.log + [Active(t, turn)], fuel := s.fuel - 1)
  {
  }

  /** A notice that names no thread or no turn, and any other message that answers nothing. */
  lemma OtherNotice(s: State, m: Message)
    requires !(m.key.Some? && (m.key.value in s.internal || m.hasResult || m.hasError)) && !s.failed && s.fuel > 0
    requires m.kind == OtherMethod || (m.kind == TurnStarted && (m.thread == NO_NAME || m.turn == NO_NAME))
    ensures Untouched(s, Upstream(s, m))
  {
  }

  /* ---- Deliveries ---- */

  /** The log of a call that was told its status and did nothing else. */
  ghost predicate OnlyTold(s: State, l: State, id: DeliveryId, status: Status) {
    && l.log == s.log + [Reply(id, status)] && l.ledger == s.ledger && l.live == s.live && l.current == s.current
    && l.threads == s.threads && l.internal == s.internal && l.tui == s.tui && l.waiting == s.waiting
  }

  /** What a call is told without being taken in: the verdict its row carries; `sent-ambiguous` for
      one that was sent in an earlier epoch; `retryable` without a connection, and `rejected` where
      another thread is current. One that is sent and still pending is told later. */
  lemma DeliverTurnedDown(s: State, id: DeliveryId, fuel: nat)
    ensures var l := Perform(s, DoDeliver(id), fuel);
            if id in s.ledger && s.ledger[id].state == Accepted then OnlyTold(s, l, id, SaysAccepted)
            else if id in s.ledger && s.ledger[id].state == Rejected then OnlyTold(s, l, id, SaysRejected)
            else if id in s.ledger && s.ledger[id].state == Sent then
              (if id in s.waiting then l.log == s.log && l.waiting == s.waiting && l.threads == s.threads else OnlyTold(s, l, id, SaysAmbiguous))
            else if !s.live then OnlyTold(s, l, id, SaysRetryable)
            else s.current != id.identity.thread ==> OnlyTold(s, l, id, SaysRejected)
  {
  }

  /** The commit of a delivery nobody asked for before. */
  function Preparing(s: State, id: DeliveryId): seq<Effect> {
    if id in s.ledger then [] else [Persist(id, Row(Prepared, id.identity, NoAction, NoReason))]
  }

  ghost predicate DeliverySteered(s: State, l: State, id: DeliveryId) {
    var t, key := id.identity.thread, Managed(s.nextKey);
    && l.log == s.log + Writing(id, Steer, key) && key in l.internal && l.internal[key] == Steering(id) && Thread(l, t) == Thread(s, t)
  }

  ghost predicate DeliveryQueued(s: State, l: State, id: DeliveryId) {
    var t := id.identity.thread;
    l.log == s.log && l.internal == s.internal && Thread(l, t) == Thread(s, t).(queued := Thread(s, t).queued + [Completion(id)])
  }

  ghost predicate DeliveryBegun(s: State, l: State, id: DeliveryId) {
    var t, key := id.identity.thread, Managed(s.nextKey);
    && l.log == s.log + Writing(id, Start, key) && key in l.internal && l.internal[key] == Starting(id, false)
    && Thread(l, t) == Thread(s, t).(steerReady := false, pendingStart := Some(key))
  }

  /** What taking in a delivery comes to: steered into a turn that is ready, queued behind one that is
      not or behind an unanswered start, started otherwise. */
  ghost predicate DeliveryPlaced(s: State, l: State, id: DeliveryId) {
    var th := Thread(s, id.identity.thread);
    && ElseSame(s, l, id.identity.thread) && l.waiting == s.waiting
    && if th.active != NO_NAME && th.steerReady then DeliverySteered(s, l, id)
       else if th.active != NO_NAME || th.pendingStart.Some? then DeliveryQueued(s, l, id)
       else DeliveryBegun(s, l, id)
  }

  lemma PlacedSteer(s: State, id: DeliveryId)
    requires !s.failed && s.fuel > 0 && CanSend(s.ledger, id)
    ensures var l := SendCompletion(s, id, Steer, false);
            !l.failed && ElseSame(s, l, id.identity.thread) && l.waiting == s.waiting && DeliverySteered(s, l, id)
  {
    SteerForm(s, id);
  }

  lemma PlacedStart(s: State, id: DeliveryId)
    requires !s.failed && s.fuel > 0 && CanSend(s.ledger, id)
    ensures var l := SendCompletion(s, id, Start, false);
            !l.failed && ElseSame(s, l, id.identity.thread) && l.waiting == s.waiting && DeliveryBegun(s, l, id)
  {
    StartForm(s, id, false);
  }

  lemma PlacedQueue(s: State, id: DeliveryId)
    requires !s.failed
    ensures var t := id.identity.thread;
            var l := SetThread(s, t, Thread(s, t).(queued := Thread(s, t).queued + [Completion(id)]));
            !l.failed && ElseSame(s, l, t) && l.waiting == s.waiting && DeliveryQueued(s, l, id)
  {
  }

  lemma PlacedDelivery(s: State, id: DeliveryId)
    requires !s.failed && s.fuel > 0 && CanSend(s.ledger, id)
    ensures var l := PlaceDelivery(s, id); !l.failed && DeliveryPlaced(s, l, id)
  {
    PlacedSteer(s, id);
    PlacedStart(s, id);
    PlacedQueue(s, id);
  }

  /** The delivery is pending, and its row prepared. */
  function Pending(s: State, id: DeliveryId): State {
    s.(waiting := s.waiting + {id}, log := s.log + Preparing(s, id))
  }

  lemma PlacingSame(a: State, b: State, l: State, id: DeliveryId)
    requires DeliveryPlaced(b, l, id) && b.nextKey == a.nextKey && b.live == a.live && b.current == a.current && b.waiting == a.waiting
    requires b.log == a.log && b.tui == a.tui && b.internal == a.internal && forall u :: Thread(b, u) == Thread(a, u)
    ensures DeliveryPlaced(a, l, id)
  {
  }

  lemma AdmittedParts(s: State, id: DeliveryId)
    requires Fits(id) && !s.failed
    requires id in s.ledger ==> s.ledger[id].state == Prepared && s.ledger[id].identity == id.identity
    ensures var a := Admitted(s, id);
            && !a.failed && a.fuel == s.fuel && CanSend(a.ledger, id) && a.log == s.log + Preparing(s, id) && a.waiting == s.waiting + {id}
            && a.nextKey == s.nextKey && a.live == s.live && a.current == s.current && a.tui == s.tui && a.internal == s.internal
            && a.threads == s.threads
  {
  }

  lemma EnterHandled(s: State, id: DeliveryId)
    requires s.live && s.current == id.identity.thread && (id in s.ledger ==> s.ledger[id].state == Prepared)
    ensures Handle(s, DoDeliver(id)) == Enter(s, id)
  {
    DeliverHandled(s, id);
    assert Turned(s, id) == None;
  }

  lemma DeliverHandled(s: State, id: DeliveryId)
    ensures Handle(s, DoDeliver(id)) == Deliver(s, id)
  {
  }

  lemma PlacedAlike(s: State, b: State, l: State, id: DeliveryId, fuel: nat)
    requires DeliveryPlaced(b, l, id) && b.nextKey == s.nextKey && b.live == s.live && b.current == s.current && b.waiting == s.waiting + {id}
    requires b.log == s.log + Preparing(s, id) && b.tui == s.tui && b.internal == s.internal && forall u :: Thread(b, u) == Thread(s, u)
    requires l == Handle(s.(fuel := fuel, failed := false), DoDeliver(id)) && !l.failed
    ensures DeliveryPlaced(Pending(s, id), Perform(s, DoDeliver(id), fuel), id)
  {
    Unfailed(s, DoDeliver(id), fuel, l);
    PlacingSame(Pending(s, id), b, l, id);
  }

  lemma EntersPlaced(s: State, id: DeliveryId, s2: State)
    requires var a, t := Admitted(s, id), id.identity.thread; s2 == SetThread(a, t, Thread(a, t))
    ensures Enter(s, id) == PlaceDelivery(s2, id)
  {
  }

  lemma TouchedAlike(a: State, s2: State, t: ThreadId)
    requires s2 == SetThread(a, t, Thread(a, t))
    ensures s2 == a.(threads := s2.threads) && forall u :: Thread(s2, u) == Thread(a, u)
  {
  }

  /** A delivery of the current thread that is prepared or new, and fits, is taken in by that rule. */
  lemma DeliverTakenIn(s: State, id: DeliveryId, fuel: nat)
    requires s.live && s.current == id.identity.thread && Fits(id) && fuel > 0
    requires id in s.ledger ==> s.ledger[id].state == Prepared && s.ledger[id].identity == id.identity
    ensures DeliveryPlaced(Pending(s, id), Perform(s, DoDeliver(id), fuel), id)
  {
    var t, s0 := id.identity.thread, s.(fuel := fuel, failed := false);
    AdmittedParts(s0, id);
    var a := Admitted(s0, id);
    var s2 := SetThread(a, t, Thread(a, t));
    PlacedDelivery(s2, id);
    EnterHandled(s0, id);
    EntersPlaced(s0, id, s2);
    TouchedAlike(a, s2, t);
    PlacedAlike(s, s2, PlaceDelivery(s2, id), id, fuel);
  }

  lemma RaisedSettles(h: State, call: Call)
    requires h.failed
    ensures var l := Settle(h, call);
            if call.DoDeliver? then l.live == h.live && l.log == h.log + [Reply(call.id, SaysRejected)] && l.threads == h.threads
            else if h.live then !l.live && l.threads == map[] && l.internal == map[] && l.tui == map[] && l.waiting == {}
                                && |l.log| == |h.log| + 1 && l.log[..|h.log|] == h.log && l.log[|h.log|].Boundary?
            else l.log == h.log && !l.live
  {
  }

  /** A call whose handler raises is told `rejected`, and the connection stays up; any other handler
      that raises ends its epoch. */
  lemma RaisedHandlers(s: State, call: Call, fuel: nat, h: State)
    requires h == Handle(s.(fuel := fuel, failed := false), call) && h.failed
    ensures var l := Perform(s, call, fuel);
            if call.DoDeliver? then l.live == h.live && l.log == h.log + [Reply(call.id, SaysRejected)] && l.threads == h.threads
            else if h.live then !l.live && l.threads == map[] && l.internal == map[] && l.tui == map[] && l.waiting == {}
                                && |l.log| == |h.log| + 1 && l.log[..|h.log|] == h.log && l.log[|h.log|].Boundary?
            else l.log == h.log && !l.live
  {
    RaisedSettles(h, call);
  }

  /* ---- Manual starts ---- */

  ghost predicate TurnSteered(s: State, l: State, key: Key, t: ThreadId) {
    var own := Managed(s.nextKey);
    && l.log == s.log + [SendManual(own, t, Steer, key)] && own in l.internal && l.internal[own] == ManualSteering(key, t)
    && Thread(l, t) == Thread(s, t) && l.tui == s.tui
  }

  ghost predicate TurnQueued(s: State, l: State, key: Key, t: ThreadId) {
    && l.log == s.log && l.tui == s.tui && l.internal == s.internal
    && Thread(l, t) == Thread(s, t).(queued := Thread(s, t).queued + [Manual(key, t)])
  }

  ghost predicate TurnBegun(s: State, l: State, key: Key, t: ThreadId) {
    && l.log == s.log + [SendManual(key, t, Start, key)] && l.tui == s.tui[key := TurnStart(t)] && l.internal == s.internal
    && Thread(l, t) == Thread(s, t).(steerReady := false, pendingStart := Some(key))
  }

  /** What taking in a turn/start comes to, on a state that has noted the request: steered into a turn
      that is ready, queued behind one that is not or behind an unanswered start, started otherwise. */
  ghost predicate TurnPlaced(s: State, l: State, key: Key, t: ThreadId) {
    var th := Thread(s, t);
    && l.live == s.live && l.current == s.current && l.waiting == s.waiting && (forall u :: u != t ==> Thread(l, u) == Thread(s, u))
    && if th.active != NO_NAME && th.steerReady then TurnSteered(s, l, key, t)
       else if th.active != NO_NAME || th.pendingStart.Some? then TurnQueued(s, l, key, t)
       else TurnBegun(s, l, key, t)
  }

  lemma ManualSteered(s: State, key: Key, t: ThreadId)
    requires !s.failed && s.fuel > 0
    ensures var l := SendManualSteer(s, key, t);
            && !l.failed && l.live == s.live && l.current == s.current && l.waiting == s.waiting && l.threads == s.threads
            && TurnSteered(s, l, key, t)
  {
  }

  lemma ManualQueued(s: State, key: Key, t: ThreadId)
    requires !s.failed
    ensures var l := SetThread(s, t, Thread(s, t).(queued := Thread(s, t).queued + [Manual(key, t)]));
            && !l.failed && l.live == s.live && l.current == s.current && l.waiting == s.waiting
            && (forall u :: u != t ==> Thread(l, u) == Thread(s, u)) && TurnQueued(s, l, key, t)
  {
  }

  function Begun(s: State, key: Key, t: ThreadId): State {
    var s2 := SetPending(s, t, key);
    Transport(Emit(s2.(tui := s2.tui[key := TurnStart(t)]), SendManual(key, t, Start, key)))
  }

  lemma ManualBegun(s: State, key: Key, t: ThreadId)
    requires !s.failed && s.fuel > 0
    ensures var l := Begun(s, key, t);
            && !l.failed && l.live == s.live && l.current == s.current && l.waiting == s.waiting
            && (forall u :: u != t ==> Thread(l, u) == Thread(s, u)) && TurnBegun(s, l, key, t)
  {
  }

  lemma PlacedTurn(s: State, key: Key, t: ThreadId)
    requires !s.failed && s.fuel > 0
    ensures var l := PlaceTurn(s, key, t); !l.failed && TurnPlaced(s, l, key, t)
  {
    ManualSteered(s, key, t);
    ManualQueued(s, key, t);
    ManualBegun(s, key, t);
    assert forall u :: Thread(SendManualSteer(s, key, t), u) == Thread(s, u);
  }

  /** The TUI asked for a turn on a thread, which is now the current one. */
  function Noted(s: State, key: Key, t: ThreadId): State {
    s.(current := t, log := s.log + [Asked(key, true)])
  }

  /** A turn/start from the TUI is steered, queued or started by the same rule. */
  lemma ManualTakenIn(s: State, key: Key, t: ThreadId, fuel: nat)
    requires s.live && fuel > 0
    ensures TurnPlaced(Noted(s, key, t), Perform(s, TuiTurnStart(key, t), fuel), key, t)
  {
    var s0 := s.(fuel := fuel, failed := false);
    var s1 := Emit(s0, Asked(key, true)).(current := t);
    var s2 := SetThread(s1, t, Thread(s1, t));
    PlacedTurn(s2, key, t);
    Unfailed(s, TuiTurnStart(key, t), fuel, PlaceTurn(s2, key, t));
    SamePlacing(Noted(s, key, t), s2, PlaceTurn(s2, key, t), key, t);
  }

  lemma SamePlacing(a: State, b: State, l: State, key: Key, t: ThreadId)
    requires TurnPlaced(b, l, key, t) && b.nextKey == a.nextKey && b.live == a.live && b.current == a.current && b.waiting == a.waiting
    requires b.log == a.log && b.tui == a.tui && b.internal == a.internal && forall u :: Thread(b, u) == Thread(a, u)
    ensures TurnPlaced(a, l, key, t)
  {
  }

  /** Any other request is remembered under its id and passed on. */
  lemma Forwarded(s: State, key: Option<Key>, request: TuiRequest, fuel: nat)
    requires s.live && fuel > 0
    ensures var l := Perform(s, TuiForward(key, request), fuel);
            && l.live && l.threads == s.threads && l.internal == s.internal && l.waiting == s.waiting && l.current == s.current
            && match key
               case Some(k) => l.log == s.log + [Asked(k, false)] && l.tui == s.tui[k := request]
               case None => l.log == s.log && l.tui == s.tui
  {
  }

  /* ---- Answers ---- */

  /** A completion's answer: what its producer is told and its row says. */
  function Verdict(id: DeliveryId, status: Status, row: Row): seq<Effect> {
    [Persist(id, row), Reply(id, status)]
  }

  /** What a steer that upstream took comes to. */
  function SteerVerdict(id: DeliveryId, named: Name, active: Name): seq<Effect> {
    if named != NO_NAME && named != active then Verdict(id, SaysRejected, Row(Rejected, id.identity, BySteer, SteerIdMismatch))
    else Verdict(id, SaysAccepted, Row(Accepted, id.identity, BySteer, NoReason))
  }

  predicate Awaiting(s: State, id: DeliveryId, action: RowAction) {
    id in s.ledger && s.ledger[id].state == Sent && s.ledger[id].identity == id.identity && s.ledger[id].action == action
  }

  lemma AcceptForm(s: State, id: DeliveryId, action: RowAction)
    requires !s.failed && id in s.ledger && s.ledger[id].state == Sent && s.ledger[id].identity == id.identity && action != NoAction
    ensures var row := Row(Accepted, id.identity, action, NoReason);
            Accept(s, id, action) == s.(ledger := s.ledger[id := row], waiting := s.waiting - {id}, log := s.log + Verdict(id, SaysAccepted, row))
  {
    var row := Row(Accepted, id.identity, action, NoReason);
    assert s.log + [Persist(id, row)] + [Reply(id, SaysAccepted)] == s.log + Verdict(id, SaysAccepted, row);
  }

  lemma RejectForm(s: State, id: DeliveryId, action: RowAction, reason: Reason)
    requires Awaiting(s, id, action)
    ensures var row := Row(Rejected, id.identity, action, reason);
            Reject(s, id, reason) == s.(ledger := s.ledger[id := row], waiting := s.waiting - {id}, log := s.log + Verdict(id, SaysRejected, row))
  {
    var row := Row(Rejected, id.identity, action, reason);
    assert s.log + [Persist(id, row)] + [Reply(id, SaysRejected)] == s.log + Verdict(id, SaysRejected, row);
  }

  lemma TakenForm(s: State, k: Key, id: DeliveryId, m: Message, s1: State)
    requires k in s.internal && s.internal[k] == Steering(id) && !m.hasError
    requires var t := id.identity.thread; s1 == SetThread(Emit(s.(internal := s.internal - {k}), Heard(id, k, true)), t, Thread(s, t))
    ensures InternalAnswered(s, k, m) ==
            if m.turn != NO_NAME && m.turn != Thread(s, id.identity.thread).active then Reject(s1, id, SteerIdMismatch) else Accept(s1, id, BySteer)
  {
  }

  /** A steer upstream took: accepted, unless the answer names another turn than the active one. */
  lemma SteerTaken(s: State, k: Key, id: DeliveryId, m: Message)
    requires Inv(s, []) && m.key == Some(k) && k in s.internal && k in WrittenKeys(s.log) && s.internal[k] == Steering(id) && !m.hasError && !s.failed
    ensures var l, t := Upstream(s, m), id.identity.thread;
            && !l.failed && ElseSame(s, l, t) && Thread(l, t) == Thread(s, t) && l.waiting == s.waiting - {id} && k !in l.internal
            && l.log == s.log + [Heard(id, k, true)] + SteerVerdict(id, m.turn, Thread(s, t).active)
  {
    var t := id.identity.thread;
    FlightFacts(s, k);
    FlightAction(s, k);
    var s1 := SetThread(Emit(s.(internal := s.internal - {k}), Heard(id, k, true)), t, Thread(s, t));
    AnswerGoes(s, m, k);
    TakenForm(s, k, id, m, s1);
    AcceptForm(s1, id, BySteer);
    RejectForm(s1, id, BySteer, SteerIdMismatch);
    assert forall u :: Thread(s1, u) == Thread(s, u);
  }

  /** The row of a flight names what was written last. */
  lemma FlightAction(s: State, k: Key)
    requires Inv(s, []) && k in s.internal && k in WrittenKeys(s.log) && !s.internal[k].ManualSteering?
    ensures s.internal[k].id in s.ledger && s.ledger[s.internal[k].id].state == Sent
    ensures s.ledger[s.internal[k].id].action == if s.internal[k].Steering? then BySteer else ByStart
  {
    var id := s.internal[k].id;
    assert At(s, [], InFlight(k)) == Some(Delivery(id));
    assert StageAt(s, InFlight(k), id);
    StageFacts(s.log, id);
    SentRowIs(s.log, id);
  }

  lemma {:induction false} SentRowIs(log: seq<Effect>, id: DeliveryId)
    requires Legal(log)
    ensures StageOf(log, id).Written? || StageOf(log, id).Marked? ==>
              id in Replay(log) && Replay(log)[id].state == Sent && Replay(log)[id].identity == id.identity
              && Replay(log)[id].action == (if StageOf(log, id).action.Steer? then BySteer else ByStart)
  {
    if log != [] {
      var before := log[..|log| - 1];
      SentRowIs(before, id);
      assert !Advance(StageOf(before, id), id, log[|log| - 1]).Illegal?;
    }
  }

  /** The beginning of a log. */
  predicate BeginsWith(log: seq<Effect>, first: seq<Effect>) {
    |first| <= |log| && log[..|first|] == first
  }

  lemma BeginsTrans(log: seq<Effect>, middle: seq<Effect>, first: seq<Effect>)
    requires BeginsWith(log, middle) && BeginsWith(middle, first)
    ensures BeginsWith(log, first)
  {
    assert log[..|first|] == log[..|middle|][..|first|];
  }

  /** Logs only grow. */
  lemma {:induction false} ItemsGrow(s: State, items: seq<Item>, reason: Reason)
    ensures BeginsWith(SteerItems(s, items).log, s.log) && BeginsWith(FailItems(s, items, reason).log, s.log)
    decreases |items|
  {
    if items != [] {
      ItemGrows(s, items[0], reason);
      var a, b := SteerItem(s, items[0]), FailItem(s, items[0], reason);
      ItemsGrow(a, items[1..], reason);
      ItemsGrow(b, items[1..], reason);
      BeginsTrans(SteerItems(s, items).log, a.log, s.log);
      BeginsTrans(FailItems(s, items, reason).log, b.log, s.log);
    }
  }

  lemma CommitGrows(s: State, id: DeliveryId, to: RowState, action: RowAction, reason: Reason)
    ensures BeginsWith(Commit(s, id, to, action, reason).log, s.log) && Commit(s, id, to, action, reason).current == s.current
  {
  }

  lemma SendGrows(s: State, id: DeliveryId)
    ensures BeginsWith(SendCompletion(s, id, Steer, false).log, s.log) && SendCompletion(s, id, Steer, false).current == s.current
  {
    CommitGrows(FileFlight(s, Steering(id)), id, Sent, BySteer, NoReason);
  }

  lemma RejectGrows(s: State, id: DeliveryId, reason: Reason)
    ensures BeginsWith(Reject(s, id, reason).log, s.log) && Reject(s, id, reason).current == s.current
  {
    CommitGrows(s, id, Rejected, NoAction, reason);
  }

  lemma ManualGrows(s: State, key: Key, t: ThreadId)
    ensures BeginsWith(SendManualSteer(s, key, t).log, s.log) && SendManualSteer(s, key, t).current == s.current
    ensures BeginsWith(TellTui(s, Some(key)).log, s.log) && TellTui(s, Some(key)).current == s.current
  {
  }

  lemma ItemGrows(s: State, item: Item, reason: Reason)
    ensures BeginsWith(SteerItem(s, item).log, s.log) && SteerItem(s, item).current == s.current
    ensures BeginsWith(FailItem(s, item, reason).log, s.log) && FailItem(s, item, reason).current == s.current
  {
    match item
    case Completion(id) => SendGrows(s, id); RejectGrows(s, id, reason);
    case Manual(key, t) => ManualGrows(s, key, t);
  }

  lemma DrainGrows(s: State, t: ThreadId, reason: Reason)
    ensures BeginsWith(Drain(s, t).log, s.log) && BeginsWith(FailQueued(s, t, reason).log, s.log)
  {
    ItemsGrow(TakeQueue(s, t), Thread(s, t).queued, reason);
    ItemsGrow(TakeQueue(s, t), Thread(s, t).queued, ActiveTurnMissing);
  }

  /** What a start that upstream took comes to: the turn is the active one, and the row says whether
      the start followed a refused steer. */
  function Begins(id: DeliveryId, k: Key, turn: Name, deferred: bool): seq<Effect> {
    [Heard(id, k, true), Active(id.identity.thread, turn)] +
    Verdict(id, SaysAccepted, Row(Accepted, id.identity, if deferred then ByStartAfterRefusal else ByStart, NoReason))
  }

  /** A start that upstream took, answered before its turn is announced: nothing more happens yet. */
  lemma StartTaken(s: State, k: Key, id: DeliveryId, deferred: bool, m: Message)
    requires Inv(s, []) && m.key == Some(k) && k in s.internal && k in WrittenKeys(s.log) && s.internal[k] == Starting(id, deferred)
    requires !m.hasError && m.turn != NO_NAME && !s.failed
    ensures var l, t := Upstream(s, m), id.identity.thread;
            && BeginsWith(l.log, s.log + Begins(id, k, m.turn, deferred)) && Thread(l, t).active == m.turn
            && Thread(l, t).pendingStart.None? && (forall u :: u != t ==> Thread(l, u) == Thread(s, u)) && l.current == s.current
            && (!Thread(s, t).steerReady ==> l.log == s.log + Begins(id, k, m.turn, deferred) && Thread(l, t).queued == Thread(s, t).queued)
  {
    var t, action := id.identity.thread, if deferred then ByStartAfterRefusal else ByStart;
    FlightFacts(s, k);
    AnswerGoes(s, m, k);
    var s1 := SetActive(StartOver(s, k, id, true), t, m.turn);
    StartForms(s, k, id, deferred, m);
    AcceptForm(s1, id, action);
    var s2 := Accept(s1, id, action);
    assert s2.log == s.log + Begins(id, k, m.turn, deferred);
    DrainGrows(s2, t, NoReason);
    DrainThreads(s2, t, NoReason);
    DrainKeeps(s2, t, NoReason);
    assert forall u :: u != t ==> Thread(s2, u) == Thread(s, u);
  }

  /** The start's flight is over and its thread has no unanswered start. */
  function StartOver(s: State, k: Key, id: DeliveryId, ok: bool): State {
    var s1 := Emit(s.(internal := s.internal - {k}), Heard(id, k, ok));
    SetThread(s1, id.identity.thread, Thread(s1, id.identity.thread).(pendingStart := None))
  }

  lemma StartForms(s: State, k: Key, id: DeliveryId, deferred: bool, m: Message)
    requires k in s.internal && s.internal[k] == Starting(id, deferred)
    ensures var t, s1 := id.identity.thread, StartOver(s, k, id, !m.hasError);
            InternalAnswered(s, k, m) ==
            if m.hasError then FailQueued(Reject(s1, id, TurnStartRejected), t, CompletionStartRejected)
            else if m.turn == NO_NAME then FailQueued(Reject(s1, id, TurnStartInvalid), t, CompletionStartInvalid)
            else
              var s2 := Accept(SetActive(s1, t, m.turn), id, if deferred then ByStartAfterRefusal else ByStart);
              if Thread(s2, t).steerReady then Drain(s2, t) else s2
  {
  }

  lemma {:induction false} ItemsKeep(s: State, items: seq<Item>, reason: Reason)
    ensures SteerItems(s, items).current == s.current && FailItems(s, items, reason).current == s.current
    decreases |items|
  {
    if items != [] {
      ItemGrows(s, items[0], reason);
      ItemsKeep(SteerItem(s, items[0]), items[1..], reason);
      ItemsKeep(FailItem(s, items[0], reason), items[1..], reason);
    }
  }

  lemma DrainKeeps(s: State, t: ThreadId, reason: Reason)
    ensures Drain(s, t).current == s.current && FailQueued(s, t, reason).current == s.current
  {
    ItemsKeep(TakeQueue(s, t), Thread(s, t).queued, reason);
    ItemsKeep(TakeQueue(s, t), Thread(s, t).queued, ActiveTurnMissing);
  }

  /** A start that upstream refused, or answered without a turn: the completion is rejected with its
      reason, before the items behind it are failed. */
  lemma StartRefused(s: State, k: Key, id: DeliveryId, deferred: bool, m: Message)
    requires Inv(s, []) && m.key == Some(k) && k in s.internal && k in WrittenKeys(s.log) && s.internal[k] == Starting(id, deferred)
    requires m.hasError || m.turn == NO_NAME
    ensures var l, t := Upstream(s, m), id.identity.thread;
            var reason := if m.hasError then TurnStartRejected else TurnStartInvalid;
            && BeginsWith(l.log, s.log + [Heard(id, k, !m.hasError)] + Verdict(id, SaysRejected, Row(Rejected, id.identity, ByStart, reason)))
            && Thread(l, t) == Thread(s, t).(pendingStart := None, queued := [])
            && (forall u :: u != t ==> Thread(l, u) == Thread(s, u)) && l.current == s.current
  {
    var t, reason := id.identity.thread, if m.hasError then TurnStartRejected else TurnStartInvalid;
    var why := if m.hasError then CompletionStartRejected else CompletionStartInvalid;
    FlightFacts(s, k);
    FlightAction(s, k);
    AnswerGoes(s, m, k);
    var s1 := StartOver(s, k, id, !m.hasError);
    StartForms(s, k, id, deferred, m);
    RejectForm(s1, id, ByStart, reason);
    var s2 := Reject(s1, id, reason);
    DrainGrows(s2, t, why);
    DrainThreads(s2, t, why);
    DrainKeeps(s2, t, why);
    assert forall u :: u != t ==> Thread(s2, u) == Thread(s, u);
  }

  /** The answer to a manual steer goes to the TUI under the id it used. */
  lemma ManualSteerAnswered(s: State, k: Key, key: Key, t: ThreadId, m: Message)
    requires m.key == Some(k) && k in s.internal && s.internal[k] == ManualSteering(key, t) && !s.failed && s.fuel > 0
    ensures var l := Upstream(s, m);
            && !l.failed && l.log == s.log + [HeardManual(k)] + [Told(key)] && l.internal == s.internal - {k}
            && l.tui == s.tui && l.waiting == s.waiting && l.current == s.current && forall u :: Thread(l, u) == Thread(s, u)
  {
    AnswerGoes(s, m, k);
  }

  lemma ResponseGoes(s: State, k: Key, m: Message)
    requires m.key == Some(k) && k !in s.internal && (m.hasResult || m.hasError)
    ensures Upstream(s, m) == TellTui(if k in s.tui then TuiAnswered(s, k, m) else s, Some(k))
  {
  }

  lemma ToldTui(l: State, k: Key)
    requires !l.failed && l.fuel > 0
    ensures TellTui(l, Some(k)) == l.(log := l.log + [Told(k)], fuel := l.fuel - 1)
  {
  }

  lemma OpenedForm(s: State, k: Key, asked: ThreadId, m: Message)
    requires k in s.tui && s.tui[k] == ThreadOpen(asked)
    ensures var t := if m.thread != NO_NAME then m.thread else asked;
            var s1 := s.(tui := s.tui - {k}, log := s.log + [HeardManual(k)]);
            TuiAnswered(s, k, m) == if m.hasError || t == NO_NAME then s1 else s1.(current := t, threads := s.threads[t := Thread(s, t)])
  {
  }

  /** The answer to an opened thread makes it current, if it names one; any answer is passed on. */
  lemma ThreadOpened(s: State, k: Key, asked: ThreadId, m: Message)
    requires m.key == Some(k) && k !in s.internal && k in s.tui && s.tui[k] == ThreadOpen(asked) && (m.hasResult || m.hasError)
    requires !s.failed && s.fuel > 0
    ensures var l, t := Upstream(s, m), if m.thread != NO_NAME then m.thread else asked;
            && !l.failed && l.log == s.log + [HeardManual(k)] + [Told(k)] && l.tui == s.tui - {k} && l.internal == s.internal
            && l.waiting == s.waiting && (forall u :: Thread(l, u) == Thread(s, u))
            && l.current == if m.hasError || t == NO_NAME then s.current else t
  {
    ResponseGoes(s, k, m);
    OpenedForm(s, k, asked, m);
    ToldTui(TuiAnswered(s, k, m), k);
    assert forall u :: Thread(TuiAnswered(s, k, m), u) == Thread(s, u);
  }

  /** An answer to any other request of the TUI, or to none that is known, is passed on. */
  lemma OtherAnswered(s: State, k: Key, m: Message)
    requires m.key == Some(k) && k !in s.internal && (k in s.tui ==> s.tui[k] == OtherRequest) && (m.hasResult || m.hasError)
    requires !s.failed && s.fuel > 0
    ensures var l := Upstream(s, m);
            && !l.failed && l.log == s.log + (if k in s.tui then [HeardManual(k)] else []) + [Told(k)] && l.tui == s.tui - {k}
            && l.internal == s.internal && l.waiting == s.waiting && l.threads == s.threads && l.current == s.current
  {
    ResponseGoes(s, k, m);
    if k !in s.tui { assert s.log + [] + [Told(k)] == s.log + [Told(k)]; }
  }

  lemma ManualTakenForm(s: State, k: Key, t: ThreadId, m: Message)
    requires k in s.tui && s.tui[k] == TurnStart(t) && !m.hasError && m.turn != NO_NAME
    requires Thread(s, t).pendingStart == Some(k) && !Thread(s, t).steerReady
    ensures TuiAnswered(s, k, m) ==
            s.(tui := s.tui - {k}, threads := s.threads[t := Thread(s, t).(active := m.turn, pendingStart := None)],
               log := s.log + [HeardManual(k)] + [Active(t, m.turn)])
  {
  }

  /** A manual start that upstream took before its turn is announced: the turn is the active one, the
      start no longer unanswered, and the TUI is told. */
  lemma ManualStartTaken(s: State, k: Key, t: ThreadId, m: Message)
    requires m.key == Some(k) && k !in s.internal && k in s.tui && s.tui[k] == TurnStart(t) && !m.hasError && m.hasResult && m.turn != NO_NAME
    requires Thread(s, t).pendingStart == Some(k) && !Thread(s, t).steerReady && !s.failed && s.fuel > 0
    ensures var l := Upstream(s, m);
            && !l.failed && l.log == s.log + [HeardManual(k)] + [Active(t, m.turn)] + [Told(k)] && l.tui == s.tui - {k}
            && Thread(l, t) == Thread(s, t).(active := m.turn, pendingStart := None)
            && (forall u :: u != t ==> Thread(l, u) == Thread(s, u)) && l.internal == s.internal && l.waiting == s.waiting && l.current == s.current
  {
    ResponseGoes(s, k, m);
    ManualTakenForm(s, k, t, m);
    ToldTui(TuiAnswered(s, k, m), k);
  }

  /* ---- Epochs ---- */

  /** The end of an epoch: every pending delivery is told `sent-ambiguous` if its row says sent and
      `retryable` otherwise, nobody else is told anything, and only the ledger remains. */
  lemma HungUp(s: State)
    requires s.live
    ensures var l := Disconnect(s);
            && |l.log| == |s.log| + 1 && l.log[..|s.log|] == s.log && l.log[|s.log|].Boundary?
            && (forall id :: id in l.log[|s.log|].replies <==> id in s.waiting)
            && (forall id :: id in s.waiting ==>
                  l.log[|s.log|].replies[id] == if id in s.ledger && s.ledger[id].state == Sent then SaysAmbiguous else SaysRetryable)
            && !l.live && l.current == NO_NAME && l.threads == map[] && l.tui == map[] && l.internal == map[] && l.waiting == {} && l.ledger == s.ledger
  {
  }

  /** A wait that runs out is told `sent-ambiguous` and changes nothing. */
  lemma WaitRunsOut(s: State, id: DeliveryId, fuel: nat)
    ensures var l := Perform(s, WaitExpired(id), fuel);
            l.log == s.log + [Reply(id, SaysAmbiguous)] && l == s.(log := l.log, fuel := fuel, failed := false)
  {
  }

  /* ---- The ledger ---- */

  /** Which transitions the ledger commits, state by state, and what it then holds. */
  lemma LedgerTable(rows: map<DeliveryId, Row>, id: DeliveryId, to: RowState, identity: Identity, action: RowAction, reason: Reason)
    ensures var r := Transition(rows, id, to, identity, action, reason);
            && (id !in rows ==> (r.Ok? <==> to == Prepared))
            && (id in rows ==>
                  (r.Ok? <==>
                     && rows[id].identity == identity
                     && ((rows[id].state == Prepared && to != Accepted) || (rows[id].state == Sent && to != Prepared)
                         || (rows[id].state == Accepted && to == Accepted) || (rows[id].state == Rejected && to == Rejected))))
            && (r.Ok? ==>
                  && id in r.value && r.value[id].state == to && r.value[id].identity == identity && r.value[id].reason == reason
                  && r.value[id].action == (if action == NoAction && id in rows then rows[id].action else action)
                  && r.value.Keys == rows.Keys + {id} && forall d :: d in rows && d != id ==> r.value[d] == rows[d])
  {
  }
}
