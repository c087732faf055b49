/** Whole runs of the gateway: any interleaving of TUI messages, upstream messages, deliveries,
    disconnects, transport failures and crashes. */
module GatewayRuns {
  import opened Prelude
  import opened GatewayLog
  import opened GatewayModel
  import opened GatewayPlaces
  import opened GatewayInvariant
  import opened GatewaySteps
  import opened GatewayHandlers

  /* ---- Deliveries ---- */

  /** Between handlers, a waiting delivery is queued, idle or in flight. */
  lemma WaitingStage(s: State, id: DeliveryId)
    requires Inv(s, []) && id in s.waiting
    ensures id in s.ledger
    ensures StageOf(s.log, id) == Ready || StageOf(s.log, id) == SteerRefused || StageOf(s.log, id).Written?
    ensures s.ledger[id].state == if StageOf(s.log, id) == Ready then Prepared else Sent
  {
    var p :| At(s, [], p) == Some(Delivery(id));
    assert StageAt(s, p, id);
    StageFacts(s.log, id);
  }

  /** No delivery is asked for again while its first request is prepared and still pending. */
  predicate NoRedeliver(s: State, id: DeliveryId) {
    !(id in s.waiting && id in s.ledger && s.ledger[id].state == Prepared)
  }

  lemma PrepareLog(log: seq<Effect>, id: DeliveryId, row: Row)
    requires Legal(log) && StageOf(log, id) == Absent && row.state == Prepared && row.identity == id.identity
    ensures var after := log + [Persist(id, row)];
            && Legal(after) && Replay(after) == Replay(log)[id := row] && StageOf(after, id) == Ready
            && (forall d :: d != id ==> StageOf(after, d) == StageOf(log, d))
            && (forall t :: ActiveOf(after, t) == ActiveOf(log, t) && OpenStarts(after, t) == OpenStarts(log, t))
            && AskedKeys(after) == AskedKeys(log) && WrittenKeys(after) == WrittenKeys(log)
            && OpenTurns(after) == OpenTurns(log)
  {
    Appended(log, Persist(id, row));
    forall d ensures !Advance(StageOf(log, d), d, Persist(id, row)).Illegal? { StageFacts(log, d); }
  }

  lemma AdmittedGround(s: State, id: DeliveryId)
    requires Ground(s) && s.live && !s.failed
    requires StageOf(s.log, id) == Absent || StageOf(s.log, id) == Ready
    ensures var l := Admitted(s, id);
            && Ground(l) && l.live && !l.failed && StageOf(l.log, id) == Ready
            && l == s.(ledger := l.ledger, log := l.log, waiting := l.waiting)
            && (forall d :: d != id ==> StageOf(l.log, d) == StageOf(s.log, d))
            && AskedKeys(l.log) == AskedKeys(s.log) && OpenTurns(l.log) == OpenTurns(s.log)
  {
    var l := Admitted(s, id);
    StageFacts(s.log, id);
    if id !in s.ledger { PrepareLog(s.log, id, Row(Prepared, id.identity, NoAction, NoReason)); }
    forall u ensures Thread(l, u) == Thread(s, u) {}
    forall u, j ensures Backed(l, u, j) == Backed(s, u, j) {}
    SamePending(s, l);
  }

  lemma AdmittedInv(s: State, id: DeliveryId)
    requires Inv(s, []) && s.live && !s.failed && id !in s.waiting
    requires StageOf(s.log, id) == Absent || StageOf(s.log, id) == Ready
    ensures Inv(Admitted(s, id), [Completion(id)]) && StageOf(Admitted(s, id).log, id) == Ready
  {
    var l, hand := Admitted(s, id), [Completion(id)];
    AdmittedGround(s, id);
    StayPut(s, [], l);
    assert hand + [] == hand;
    assert !Held(s, [], Delivery(id));
    Welcome(l, [], [Completion(id)]);
    WelcomeContents(s, l, hand);
  }

  lemma DeliverInv(s: State, id: DeliveryId)
    requires Inv(s, []) && !s.failed && NoRedeliver(s, id)
    ensures Inv(Deliver(s, id), [])
  {
    var t := id.identity.thread;
    StageFacts(s.log, id);
    if id in s.waiting { WaitingStage(s, id); }
    if id in s.ledger && s.ledger[id].state == Accepted {
      SayReply(s, [], id, SaysAccepted);
    } else if id in s.ledger && s.ledger[id].state == Sent {
      if id !in s.waiting { SayReply(s, [], id, SaysAmbiguous); }
    } else if id in s.ledger && s.ledger[id].state == Rejected {
      SayReply(s, [], id, SaysRejected);
    } else if !s.live {
      SayReply(s, [], id, SaysRetryable);
    } else if s.current != t {
      SayReply(s, [], id, SaysRejected);
    } else {
      PlaceDeliveryInv(s, id);
    }
  }

  lemma PlaceInv(s: State, id: DeliveryId)
    requires Inv(s, [Completion(id)]) && s.live && !s.failed && StageOf(s.log, id) == Ready
    ensures Inv(PlaceDelivery(s, id), [])
  {
    var t, hand := id.identity.thread, [Completion(id)];
    assert hand[1..] == [] && hand == hand + [];
    var th := Thread(s, t);
    if th.active != NO_NAME && th.steerReady {
      SendInv(s, [], id, Steer, false);
    } else if th.active != NO_NAME || th.pendingStart.Some? {
      EnqueueInv(s, hand, t);
    } else {
      SendInv(s, [], id, Start, false);
    }
  }

  lemma PlaceDeliveryInv(s: State, id: DeliveryId)
    requires Inv(s, []) && s.live && !s.failed && id !in s.waiting && s.current == id.identity.thread
    requires StageOf(s.log, id) == Absent || StageOf(s.log, id) == Ready
    requires id in s.ledger ==> s.ledger[id].state == Prepared
    ensures Inv(Deliver(s, id), [])
  {
    AdmittedInv(s, id);
    AdmittedGround(s, id);
    var s1, t := Admitted(s, id), id.identity.thread;
    TouchInv(s1, [Completion(id)], t);
    PlaceInv(SetThread(s1, t, Thread(s1, t)), id);
  }

  /* ---- Ends of epochs ---- */

  lemma FreshInv(s: State)
    requires Durable(s) && s.threads == map[] && s.tui == map[] && s.internal == map[] && s.waiting == {}
    requires s.live || s.current == NO_NAME
    requires AskedKeys(s.log) == {} && WrittenKeys(s.log) == {} && OpenTurns(s.log) == {}
    requires forall t :: OpenStarts(s.log, t) == {} && ActiveOf(s.log, t) == NO_NAME
    ensures Inv(s, [])
  {
    forall p ensures At(s, [], p) == None {}
    forall t, k ensures !Backed(s, t, k) {}
    forall t ensures Thread(s, t) == FRESH_THREAD {}
  }

  lemma BoundaryLog(log: seq<Effect>, replies: map<DeliveryId, Status>)
    requires Legal(log) && forall id :: id in replies ==> HonestReply(StageOf(log, id), replies[id])
    ensures var after := log + [Boundary(replies)];
            && Legal(after) && Replay(after) == Replay(log)
            && AskedKeys(after) == {} && WrittenKeys(after) == {} && OpenTurns(after) == {}
            && forall t :: OpenStarts(after, t) == {} && ActiveOf(after, t) == NO_NAME
  {
    var e := Boundary(replies);
    Appended(log, e);
    forall d ensures !Advance(StageOf(log, d), d, e).Illegal? { StageFacts(log, d); }
  }

  /** Hanging up is honest even in the middle of a handler. */
  lemma DisconnectInv(s: State, hand: seq<Item>)
    requires Inv(s, hand) && s.live
    ensures Inv(Disconnect(s), [])
  {
    var replies := HangupReplies(s);
    forall id | id in replies ensures HonestReply(StageOf(s.log, id), replies[id]) {
      var p :| At(s, hand, p) == Some(Delivery(id));
      assert StageAt(s, p, id);
      StageFacts(s.log, id);
    }
    BoundaryLog(s.log, replies);
    FreshInv(Disconnect(s));
  }

  lemma ConnectInv(s: State)
    requires Inv(s, [])
    ensures Inv(Connect(s), [])
  {
    if !s.live {
      var l := Connect(s);
      assert l == s.(live := true);
      StayPut(s, [], l);
      forall u ensures Thread(l, u) == Thread(s, u) {}
      forall u, j ensures Backed(l, u, j) == Backed(s, u, j) {}
      SamePending(s, l);
    }
  }

  /* ---- Runs ---- */

  /** What a run takes for granted of the TUI, of upstream and of the producers. */
  predicate Admissible(s: State, call: Call) {
    match call
    case TuiTurnStart(key, _) => NewKey(s, key)
    case TuiForward(key, request) => !request.TurnStart? && (key.Some? ==> NewKey(s, key.value))
    case FromUpstream(m) => Answerable(s, m)
    case DoDeliver(id) => NoRedeliver(s, id)
    case _ => true
  }

  predicate Lawful(s: State, events: seq<Event>)
    decreases |events|
  {
    events == [] || (Admissible(s, events[0].call) && Lawful(Step(s, events[0]), events[1..]))
  }

  lemma HandleInv(s: State, call: Call) returns (rest: seq<Item>)
    requires Inv(s, []) && !s.failed && Admissible(s, call)
    ensures Inv(Handle(s, call), rest)
    ensures !Handle(s, call).failed || call.DoDeliver? ==> rest == []
    ensures Handle(s, call).failed && !call.DoDeliver? ==> Handle(s, call).live
  {
    rest := [];
    match call
    case DoConnect => ConnectInv(s);
    case DoDisconnect => if s.live { DisconnectInv(s, []); }
    case TuiTurnStart(key, t) => if s.live { ManualStartInv(s, key, t); }
    case TuiBadTurnStart => if s.live { Bookkeeping(s, Transport(s), []); }
    case TuiForward(key, request) => if s.live { ForwardInv(s, key, request); }
    case FromUpstream(m) => if s.live { rest := UpstreamInv(s, m); }
    case DoDeliver(id) => DeliverInv(s, id);
    case WaitExpired(id) => SayReply(s, [], id, SaysAmbiguous);
  }

  lemma PerformInv(s: State, call: Call, fuel: nat)
    requires Inv(s, []) && Admissible(s, call)
    ensures Inv(Perform(s, call, fuel), []) && !Perform(s, call, fuel).failed
  {
    var s0 := s.(fuel := fuel, failed := false);
    Bookkeeping(s, s0, []);
    var rest := HandleInv(s0, call);
    var s1 := Handle(s0, call);
    if s1.failed {
      var s2 := s1.(failed := false);
      Bookkeeping(s1, s2, rest);
      match call {
        case DoDeliver(id) => SayReply(s2, [], id, SaysRejected);
        case _ => DisconnectInv(s2, rest);
      }
    }
  }

  lemma CrashInv(log: seq<Effect>, n: nat)
    requires Legal(log)
    ensures Inv(Restart(FirstEffects(log, n) + [Boundary(map[])]), [])
  {
    if n <= |log| { LegalPrefix(log, n); }
    BoundaryLog(FirstEffects(log, n), map[]);
    FreshInv(Restart(FirstEffects(log, n) + [Boundary(map[])]));
  }

  lemma CrashStepInv(s: State, call: Call, fuel: nat, keep: nat)
    requires Legal(Perform(s, call, fuel).log)
    ensures Inv(Step(s, Crash(call, fuel, keep)), [])
  {
    CrashInv(Perform(s, call, fuel).log, |s.log| + keep);
  }

  lemma StepInv(s: State, e: Event)
    requires Inv(s, []) && Admissible(s, e.call)
    ensures Inv(Step(s, e), [])
  {
    PerformInv(s, e.call, e.fuel);
    if e.Crash? { CrashStepInv(s, e.call, e.fuel, e.keep); }
  }

  /** The invariant holds after every run. */
  lemma {:induction false} RunInv(s: State, events: seq<Event>)
    requires Inv(s, []) && Lawful(s, events)
    ensures Inv(Continue(s, events), [])
    decreases |events|
  {
    if events != [] {
      StepInv(s, events[0]);
      RunInv(Step(s, events[0]), events[1..]);
    }
  }

  lemma Reachable(events: seq<Event>)
    requires Lawful(START, events)
    ensures Inv(Continue(START, events), [])
  {
    FreshInv(START);
    RunInv(START, events);
  }
}
