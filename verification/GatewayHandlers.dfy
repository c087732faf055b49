/** Every handler keeps the invariant. */
module GatewayHandlers {
  import opened Prelude
  import opened GatewayLog
  import opened GatewayModel
  import opened GatewayPlaces
  import opened GatewayInvariant
  import opened GatewaySteps

  /* ---- Queues ---- */

  lemma FailQueuedInv(s: State, hand: seq<Item>, t: ThreadId, reason: Reason) returns (rest: seq<Item>)
    requires Inv(s, hand) && s.live
    ensures Inv(FailQueued(s, t, reason), rest) && FailQueued(s, t, reason).live
    ensures !FailQueued(s, t, reason).failed ==> rest == hand
  {
    var queue := Thread(s, t).queued;
    TakeQueueInv(s, hand, t);
    assert (queue + hand)[..|queue|] == queue && (queue + hand)[|queue|..] == hand;
    rest := FailItemsInv(TakeQueue(s, t), queue + hand, |queue|, reason);
  }

  lemma DrainInv(s: State, hand: seq<Item>, t: ThreadId) returns (rest: seq<Item>)
    requires Inv(s, hand) && s.live
    ensures Inv(Drain(s, t), rest) && Drain(s, t).live
    ensures !Drain(s, t).failed ==> rest == hand
  {
    if Thread(s, t).active == NO_NAME {
      rest := FailQueuedInv(s, hand, t, ActiveTurnMissing);
    } else {
      var queue := Thread(s, t).queued;
      TakeQueueInv(s, hand, t);
      assert (queue + hand)[..|queue|] == queue && (queue + hand)[|queue|..] == hand;
      rest := SteerItemsInv(TakeQueue(s, t), queue + hand, |queue|);
    }
  }

  lemma EnqueueInv(s: State, hand: seq<Item>, t: ThreadId)
    requires Inv(s, hand) && s.live && hand != []
    requires match hand[0] case Completion(id) => id.identity.thread == t && StageOf(s.log, id) == Ready case _ => true
    ensures Inv(SetThread(s, t, Thread(s, t).(queued := Thread(s, t).queued + [hand[0]])), hand[1..])
  {
    var d := InQueue(t, |Thread(s, t).queued|);
    var l := SetThread(s, t, Thread(s, t).(queued := Thread(s, t).queued + [hand[0]]));
    CarryGround(s, l);
    forall p | p != d ensures At(l, hand[1..], p) == At(s, hand, Dropped(p)) {}
    forall p | p != d && !p.InHand? ensures At(l, hand[1..], p) == At(s, hand, p) {}
    PutDown(s, hand, l, d);
    PutStaged(s, hand, l, d);
    PutAsking(s, hand, l, d);
  }

  lemma IdleInv(s: State, hand: seq<Item>, id: DeliveryId)
    requires Inv(s, hand) && s.live && hand != [] && hand[0] == Completion(id)
    requires StageOf(s.log, id) == SteerRefused
    ensures var t := id.identity.thread;
            Inv(SetThread(s, t, Thread(s, t).(idle := Thread(s, t).idle + [id])), hand[1..])
  {
    var t := id.identity.thread;
    var d := InIdle(t, |Thread(s, t).idle|);
    var l := SetThread(s, t, Thread(s, t).(idle := Thread(s, t).idle + [id]));
    assert At(s, hand, InHand(0)) == Some(Delivery(id));
    assert StageAt(s, InHand(0), id);
    CarryGround(s, l);
    forall p | p != d ensures At(l, hand[1..], p) == At(s, hand, Dropped(p)) {}
    forall p | p != d && !p.InHand? ensures At(l, hand[1..], p) == At(s, hand, p) {}
    PutDown(s, hand, l, d);
    PutStaged(s, hand, l, d);
    PutAsking(s, hand, l, d);
  }

  function IdleTaken(s: State, t: ThreadId): State
    requires Thread(s, t).idle != []
  {
    SetThread(s, t, Thread(s, t).(idle := Thread(s, t).idle[1..]))
  }

  lemma TakeIdleContents(s: State, hand: seq<Item>, t: ThreadId, more: seq<Item>)
    requires Staged(s, hand) && Asking(s, hand) && Thread(s, t).idle != []
    requires more == [Completion(Thread(s, t).idle[0])] + hand
    ensures Staged(IdleTaken(s, t), more) && Asking(IdleTaken(s, t), more)
    ensures StageOf(s.log, Thread(s, t).idle[0]) == SteerRefused && Fits(Thread(s, t).idle[0])
    ensures Thread(s, t).idle[0].identity.thread == t
  {
    var l := IdleTaken(s, t);
    forall p | At(l, more, p).Some? ensures At(s, hand, Idled(p, t)) == At(l, more, p) {}
    forall p, d | At(l, more, p) == Some(Delivery(d)) ensures d in l.waiting && StageAt(l, p, d) {
      assert At(s, hand, Idled(p, t)) == Some(Delivery(d));
      assert StageAt(s, Idled(p, t), d);
    }
    forall p, k | At(l, more, p) == Some(Turn(k)) ensures k in AskedKeys(l.log) {
      assert At(s, hand, Idled(p, t)) == Some(Turn(k));
    }
    assert At(s, hand, InIdle(t, 0)) == Some(Delivery(Thread(s, t).idle[0]));
    assert StageAt(s, InIdle(t, 0), Thread(s, t).idle[0]);
  }

  lemma IdleTakenInv(s: State, hand: seq<Item>, t: ThreadId)
    requires Inv(s, hand) && s.live && Thread(s, t).idle != []
    ensures Inv(IdleTaken(s, t), [Completion(Thread(s, t).idle[0])] + hand)
    ensures StageOf(s.log, Thread(s, t).idle[0]) == SteerRefused && Fits(Thread(s, t).idle[0])
    ensures Thread(s, t).idle[0].identity.thread == t
  {
    var more := [Completion(Thread(s, t).idle[0])] + hand;
    TakeIdle(s, hand, t, more);
    CarryGround(s, IdleTaken(s, t));
    TakeIdleContents(s, hand, t, more);
  }

  lemma StartNextIdleInv(s: State, hand: seq<Item>, t: ThreadId)
    requires Inv(s, hand) && s.live && !s.failed
    ensures Inv(StartNextIdle(s, t), hand) && StartNextIdle(s, t).live
  {
    var th := Thread(s, t);
    if th.active == NO_NAME && th.pendingStart.None? && th.idle != [] {
      IdleTakenInv(s, hand, t);
      SendInv(IdleTaken(s, t), hand, th.idle[0], Start, true);
    }
  }

  /* ---- Thread state ---- */

  lemma SetActiveInv(s: State, hand: seq<Item>, t: ThreadId, turn: Name)
    requires Inv(s, hand) && s.live
    ensures Inv(SetActive(s, t, turn), hand)
    ensures forall d :: StageOf(SetActive(s, t, turn).log, d) == StageOf(s.log, d)
  {
    var e := Active(t, turn);
    var l := SetActive(s, t, turn);
    PlainLog(s.log, e);
    assert forall u :: Thread(l, u) == if u == t then Thread(s, t).(active := turn) else Thread(s, u);
    forall u, j ensures Backed(l, u, j) == Backed(s, u, j) {}
    SamePending(s, l);
    SameContents(s, hand, l);
  }

  /** The readiness flag and the mere presence of a thread do not matter. */
  lemma SetReadyInv(s: State, hand: seq<Item>, t: ThreadId, ready: bool)
    requires Inv(s, hand) && s.live
    ensures Inv(SetThread(s, t, Thread(s, t).(steerReady := ready)), hand)
  {
    var l := SetThread(s, t, Thread(s, t).(steerReady := ready));
    CarryGround(s, l);
    SameContents(s, hand, l);
  }

  lemma TouchInv(s: State, hand: seq<Item>, t: ThreadId)
    requires Inv(s, hand) && s.live
    ensures Inv(SetThread(s, t, Thread(s, t)), hand)
  {
    SetReadyInv(s, hand, t, Thread(s, t).steerReady);
  }

  /* ---- Reading answers ---- */

  lemma HeardLog(log: seq<Effect>, id: DeliveryId, k: Key, ok: bool)
    requires Legal(log) && StageOf(log, id).Written?
    ensures var after := log + [Heard(id, k, ok)];
            && Legal(after) && Replay(after) == Replay(log)
            && StageOf(after, id) == AfterHeard(StageOf(log, id), ok)
            && (forall d :: d != id ==> StageOf(after, d) == StageOf(log, d))
            && (forall t :: ActiveOf(after, t) == ActiveOf(log, t))
            && (forall t :: OpenStarts(after, t) == OpenStarts(log, t) - {k})
            && AskedKeys(after) == AskedKeys(log) && WrittenKeys(after) == WrittenKeys(log)
            && OpenTurns(after) == OpenTurns(log)
  {
    Appended(log, Heard(id, k, ok));
    forall d ensures !Advance(StageOf(log, d), d, Heard(id, k, ok)).Illegal? { StageFacts(log, d); }
  }

  /** A key that no thread is waiting on can be forgotten. */
  lemma ForgetKey(s: State, l: State, k: Key)
    requires Starts(s) && (forall u :: !Backed(s, u, k))
    requires forall u :: Thread(l, u).pendingStart == Thread(s, u).pendingStart
    requires forall u :: OpenStarts(l.log, u) == OpenStarts(s.log, u) - {k}
    requires forall u, j :: j != k ==> Backed(l, u, j) == Backed(s, u, j)
    requires forall u :: !Backed(l, u, k)
    ensures Starts(l)
  {
    forall u ensures OpenStarts(l.log, u) == OpenStarts(s.log, u) {
      assert OpenStarts(s.log, u) == PendingSet(s, u);
      assert Thread(s, u).pendingStart.Some? ==> Backed(s, u, Thread(s, u).pendingStart.value);
    }
    forall u, j ensures Backed(l, u, j) == Backed(s, u, j) {}
    SamePending(s, l);
  }

  /** The answer to the pending start of `t` clears it. */
  lemma ClearPending(s: State, l: State, t: ThreadId, k: Key)
    requires Starts(s) && Thread(s, t).pendingStart == Some(k) && (forall u :: Backed(s, u, k) <==> u == t)
    requires forall u :: Thread(l, u).pendingStart == if u == t then None else Thread(s, u).pendingStart
    requires forall u :: OpenStarts(l.log, u) == OpenStarts(s.log, u) - {k}
    requires forall u, j :: j != k ==> Backed(l, u, j) == Backed(s, u, j)
    requires forall u :: !Backed(l, u, k)
    ensures Starts(l)
  {
    forall u ensures OpenStarts(l.log, u) == PendingSet(l, u) {
      assert OpenStarts(s.log, u) == PendingSet(s, u);
      assert Thread(s, u).pendingStart.Some? ==> Backed(s, u, Thread(s, u).pendingStart.value);
    }
    forall u | Thread(l, u).pendingStart.Some? ensures Backed(l, u, Thread(l, u).pendingStart.value) {
      var j := Thread(s, u).pendingStart.value;
      assert Backed(s, u, j);
    }
    forall u, j ensures Backed(l, u, j) ==> Thread(l, u).pendingStart == Some(j) {
      if Backed(l, u, j) { assert Backed(s, u, j); assert Thread(s, t).pendingStart == Some(k); }
    }
  }

  /** A flight lands: its work comes to the head of the hand. */
  lemma Land(s: State, hand: seq<Item>, l: State, more: seq<Item>, k: Key, item: Item)
    requires Unique(s, hand) && k in s.internal && FlightWork(s.internal[k]) == WorkOf(item)
    requires l.internal == s.internal - {k} && l.tui == s.tui && more == [item] + hand
    requires forall u :: Thread(l, u).queued == Thread(s, u).queued && Thread(l, u).idle == Thread(s, u).idle
    ensures PickedUp(s, hand, l, more, InFlight(k))
    ensures Unique(l, more) && SameHeld(s, hand, l, more)
  {
    forall p | p != InFlight(k) && !p.InHand? ensures At(l, more, p) == At(s, hand, p) {
      match p
      case InQueue(t, i) => assert Thread(l, t).queued == Thread(s, t).queued;
      case InIdle(t, i) => assert Thread(l, t).idle == Thread(s, t).idle;
      case _ =>
    }
    PickUp(s, hand, l, more, InFlight(k));
  }

  function StartHeard(s: State, k: Key, id: DeliveryId, ok: bool): State {
    var t := id.identity.thread;
    var s1 := Emit(s.(internal := s.internal - {k}), Heard(id, k, ok));
    SetThread(s1, t, Thread(s1, t).(pendingStart := None))
  }

  lemma StartHeardGround(s: State, k: Key, id: DeliveryId, ok: bool, l: State)
    requires Ground(s) && s.live && k in s.internal && s.internal[k].Starting? && s.internal[k].id == id
    requires Fits(id) && StageOf(s.log, id).Written? && l == StartHeard(s, k, id, ok)
    ensures Ground(l)
  {
    var t := id.identity.thread;
    HeardLog(s.log, id, k, ok);
    assert forall u :: Thread(l, u) == if u == t then Thread(s, t).(pendingStart := None) else Thread(s, u);
    assert k !in s.tui;
    assert Backed(s, t, k);
    forall u, j | j != k ensures Backed(l, u, j) == Backed(s, u, j) {}
    forall u ensures Backed(s, u, k) <==> u == t {}
    ClearPending(s, l, t, k);
  }

  lemma StartHeardInv(s: State, hand: seq<Item>, k: Key, id: DeliveryId, ok: bool)
    requires Inv(s, hand) && s.live && k in s.internal && s.internal[k].Starting? && s.internal[k].id == id
    requires k in WrittenKeys(s.log)
    ensures Inv(StartHeard(s, k, id, ok), [Completion(id)] + hand)
    ensures StageOf(StartHeard(s, k, id, ok).log, id) == (if ok then Answered else Denied)
  {
    var l, more := StartHeard(s, k, id, ok), [Completion(id)] + hand;
    assert At(s, hand, InFlight(k)) == Some(Delivery(id));
    assert StageAt(s, InFlight(k), id);
    HeardLog(s.log, id, k, ok);
    StartHeardGround(s, k, id, ok, l);
    Land(s, hand, l, more, k, Completion(id));
    PickedContents(s, hand, l, more, InFlight(k));
  }

  function SteerHeard(s: State, k: Key, id: DeliveryId, ok: bool): State {
    Emit(s.(internal := s.internal - {k}), Heard(id, k, ok))
  }

  lemma SteerHeardInv(s: State, hand: seq<Item>, k: Key, id: DeliveryId, ok: bool)
    requires Inv(s, hand) && s.live && k in s.internal && s.internal[k] == Steering(id)
    requires k in WrittenKeys(s.log)
    ensures Inv(SteerHeard(s, k, id, ok), [Completion(id)] + hand)
    ensures StageOf(SteerHeard(s, k, id, ok).log, id) == (if ok then Answered else SteerRefused)
  {
    var l, more := SteerHeard(s, k, id, ok), [Completion(id)] + hand;
    assert At(s, hand, InFlight(k)) == Some(Delivery(id));
    assert StageAt(s, InFlight(k), id);
    HeardLog(s.log, id, k, ok);
    assert forall u :: Thread(l, u) == Thread(s, u);
    assert k !in s.tui;
    forall u, j | j != k ensures Backed(l, u, j) == Backed(s, u, j) {}
    ForgetKey(s, l, k);
    Land(s, hand, l, more, k, Completion(id));
    PickedContents(s, hand, l, more, InFlight(k));
  }

  lemma ManualSteerHeardInv(s: State, hand: seq<Item>, k: Key, key: Key, t: ThreadId)
    requires Inv(s, hand) && s.live && k in s.internal && s.internal[k] == ManualSteering(key, t)
    ensures Inv(Emit(s.(internal := s.internal - {k}), HeardManual(k)), [Manual(key, t)] + hand)
  {
    var l, more := Emit(s.(internal := s.internal - {k}), HeardManual(k)), [Manual(key, t)] + hand;
    PlainLog(s.log, HeardManual(k));
    assert forall u :: Thread(l, u) == Thread(s, u);
    assert k !in s.tui;
    forall u, j | j != k ensures Backed(l, u, j) == Backed(s, u, j) {}
    ForgetKey(s, l, k);
    Land(s, hand, l, more, k, Manual(key, t));
    PickedContents(s, hand, l, more, InFlight(k));
  }

  function TurnHeard(s: State, k: Key, t: ThreadId): State {
    var s1 := Emit(s.(tui := s.tui - {k}), HeardManual(k));
    SetThread(s1, t, Thread(s1, t).(pendingStart := None))
  }

  lemma TurnHeardInv(s: State, hand: seq<Item>, k: Key, t: ThreadId)
    requires Inv(s, hand) && s.live && k in s.tui && s.tui[k] == TurnStart(t)
    ensures Inv(TurnHeard(s, k, t), [Manual(k, t)] + hand)
    ensures Thread(s, t).pendingStart == Some(k)
    ensures forall d :: StageOf(TurnHeard(s, k, t).log, d) == StageOf(s.log, d)
  {
    var l, more := TurnHeard(s, k, t), [Manual(k, t)] + hand;
    PlainLog(s.log, HeardManual(k));
    assert forall u :: Thread(l, u) == if u == t then Thread(s, t).(pendingStart := None) else Thread(s, u);
    assert k.Client?;
    assert Backed(s, t, k);
    forall u, j | j != k ensures Backed(l, u, j) == Backed(s, u, j) {}
    ClearPending(s, l, t, k);
    forall p | p != AtTui(k) && !p.InHand? ensures At(l, more, p) == At(s, hand, p) {}
    PickUp(s, hand, l, more, AtTui(k));
    PickedContents(s, hand, l, more, AtTui(k));
  }

  lemma OtherHeardInv(s: State, hand: seq<Item>, k: Key)
    requires Inv(s, hand) && s.live && k in s.tui && !s.tui[k].TurnStart?
    ensures Inv(Emit(s.(tui := s.tui - {k}), HeardManual(k)), hand)
  {
    var l := Emit(s.(tui := s.tui - {k}), HeardManual(k));
    PlainLog(s.log, HeardManual(k));
    assert k.Client?;
    assert forall u :: Thread(l, u) == Thread(s, u);
    forall u, j | j != k ensures Backed(l, u, j) == Backed(s, u, j) {}
    ForgetKey(s, l, k);
    forall p ensures At(l, hand, p) == At(s, hand, p) {}
    MovedNothing(s, hand, l);
  }

  /** As `SameContents`, when a collection changed in a way no place can see. */
  lemma MovedNothing(s: State, hand: seq<Item>, l: State)
    requires Unique(s, hand) && Staged(s, hand) && Asking(s, hand) && Present(s, hand)
    requires (forall p :: At(l, hand, p) == At(s, hand, p)) && l.internal == s.internal && l.waiting == s.waiting
    requires forall d :: StageOf(l.log, d) == StageOf(s.log, d)
    requires AskedKeys(s.log) <= AskedKeys(l.log) && OpenTurns(l.log) <= OpenTurns(s.log)
    ensures Unique(l, hand) && Staged(l, hand) && Asking(l, hand) && Present(l, hand)
  {
    forall p, d | At(l, hand, p) == Some(Delivery(d)) ensures d in l.waiting && StageAt(l, p, d) {
      assert At(s, hand, p) == Some(Delivery(d));
      assert StageAt(s, p, d);
    }
    forall w | Held(s, hand, w) ensures Held(l, hand, w) {
      var p :| At(s, hand, p) == Some(w);
      assert At(l, hand, p) == Some(w);
    }
  }

  /* ---- Handlers ---- */

  lemma StartRefusedInv(s: State, id: DeliveryId, t: ThreadId, why: Reason, whyQueued: Reason) returns (rest: seq<Item>)
    requires Inv(s, [Completion(id)]) && s.live && !s.failed && StageOf(s.log, id) in {Answered, Denied}
    ensures var l := FailQueued(Reject(s, id, why), t, whyQueued);
            Inv(l, rest) && l.live && (!l.failed ==> rest == [])
  {
    assert [Completion(id)][1..] == [];
    RejectInv(s, [Completion(id)], id, why);
    rest := FailQueuedInv(Reject(s, id, why), [], t, whyQueued);
  }

  lemma StartAcceptedInv(s: State, id: DeliveryId, t: ThreadId, turn: Name, action: RowAction) returns (rest: seq<Item>)
    requires Inv(s, [Completion(id)]) && s.live && !s.failed && StageOf(s.log, id) == Answered && action != NoAction
    ensures var s2 := Accept(SetActive(s, t, turn), id, action);
            var l := if Thread(s2, t).steerReady then Drain(s2, t) else s2;
            Inv(l, rest) && l.live && (!l.failed ==> rest == [])
  {
    assert [Completion(id)][1..] == [];
    SetActiveInv(s, [Completion(id)], t, turn);
    AcceptInv(SetActive(s, t, turn), [Completion(id)], id, action);
    var s2 := Accept(SetActive(s, t, turn), id, action);
    if Thread(s2, t).steerReady { rest := DrainInv(s2, [], t); } else { rest := []; }
  }

  lemma StartAnsweredInv(s: State, k: Key, id: DeliveryId, deferred: bool, m: Message) returns (rest: seq<Item>)
    requires Inv(s, []) && s.live && !s.failed && k in s.internal && s.internal[k] == Starting(id, deferred)
    requires k in WrittenKeys(s.log)
    ensures Inv(InternalAnswered(s, k, m), rest) && InternalAnswered(s, k, m).live
    ensures !InternalAnswered(s, k, m).failed ==> rest == []
  {
    var t := id.identity.thread;
    var s1 := StartHeard(s, k, id, !m.hasError);
    StartHeardInv(s, [], k, id, !m.hasError);
    assert [Completion(id)] + [] == [Completion(id)];
    if m.hasError {
      rest := StartRefusedInv(s1, id, t, TurnStartRejected, CompletionStartRejected);
    } else if m.turn == NO_NAME {
      rest := StartRefusedInv(s1, id, t, TurnStartInvalid, CompletionStartInvalid);
    } else {
      rest := StartAcceptedInv(s1, id, t, m.turn, if deferred then ByStartAfterRefusal else ByStart);
    }
  }

  lemma SteerAnsweredInv(s: State, k: Key, id: DeliveryId, m: Message)
    requires Inv(s, []) && s.live && !s.failed && k in s.internal && s.internal[k] == Steering(id)
    requires k in WrittenKeys(s.log)
    ensures Inv(InternalAnswered(s, k, m), []) && InternalAnswered(s, k, m).live
  {
    var t := id.identity.thread;
    var s1 := SteerHeard(s, k, id, !m.hasError);
    SteerHeardInv(s, [], k, id, !m.hasError);
    var hand := [Completion(id)];
    assert hand + [] == hand && hand[1..] == [];
    if m.hasError { SteerRefusedInv(s1, hand, id); } else { SteerTakenInv(s1, hand, id, m.turn); }
  }

  lemma SteerRefusedInv(s: State, hand: seq<Item>, id: DeliveryId)
    requires Inv(s, hand) && s.live && !s.failed && hand == [Completion(id)] && hand[1..] == []
    requires StageOf(s.log, id) == SteerRefused && Fits(id)
    ensures var t := id.identity.thread;
            var l := StartNextIdle(SetThread(s, t, Thread(s, t).(idle := Thread(s, t).idle + [id])), t);
            Inv(l, []) && l.live
  {
    var t := id.identity.thread;
    IdleInv(s, hand, id);
    StartNextIdleInv(SetThread(s, t, Thread(s, t).(idle := Thread(s, t).idle + [id])), [], t);
  }

  lemma SteerTakenInv(s: State, hand: seq<Item>, id: DeliveryId, turn: Name)
    requires Inv(s, hand) && s.live && !s.failed && hand == [Completion(id)] && hand[1..] == []
    requires StageOf(s.log, id) == Answered
    ensures var t := id.identity.thread;
            var s2 := SetThread(s, t, Thread(s, t));
            var l := if turn != NO_NAME && turn != Thread(s, t).active then Reject(s2, id, SteerIdMismatch) else Accept(s2, id, BySteer);
            Inv(l, []) && l.live
  {
    var t := id.identity.thread;
    TouchInv(s, hand, t);
    var s2 := SetThread(s, t, Thread(s, t));
    if turn != NO_NAME && turn != Thread(s, t).active {
      RejectInv(s2, hand, id, SteerIdMismatch);
    } else {
      AcceptInv(s2, hand, id, BySteer);
    }
  }

  lemma ManualSteerAnsweredInv(s: State, k: Key, key: Key, t: ThreadId, m: Message)
    requires Inv(s, []) && s.live && !s.failed && k in s.internal && s.internal[k] == ManualSteering(key, t)
    ensures Inv(InternalAnswered(s, k, m), []) && InternalAnswered(s, k, m).live
  {
    var s1 := Emit(s.(internal := s.internal - {k}), HeardManual(k));
    ManualSteerHeardInv(s, [], k, key, t);
    var hand := [Manual(key, t)];
    assert hand + [] == hand && hand[1..] == [];
    TouchInv(s1, hand, t);
    FinishTurnInv(SetThread(s1, t, Thread(s1, t)), hand);
  }

  lemma ManualStartAnsweredInv(s: State, k: Key, t: ThreadId, m: Message) returns (rest: seq<Item>)
    requires Inv(s, []) && s.live && !s.failed && k in s.tui && s.tui[k] == TurnStart(t)
    ensures Inv(TuiAnswered(s, k, m), rest) && TuiAnswered(s, k, m).live
    ensures !TuiAnswered(s, k, m).failed ==> rest == [Manual(k, t)]
  {
    var s1 := TurnHeard(s, k, t);
    TurnHeardInv(s, [], k, t);
    var hand := [Manual(k, t)];
    assert hand + [] == hand;
    if m.hasError {
      rest := FailQueuedInv(s1, hand, t, ManualStartRejected);
    } else if m.turn == NO_NAME {
      rest := FailQueuedInv(s1, hand, t, ManualStartInvalid);
    } else {
      SetActiveInv(s1, hand, t, m.turn);
      var s2 := SetActive(s1, t, m.turn);
      if Thread(s2, t).steerReady { rest := DrainInv(s2, hand, t); } else { rest := hand; }
    }
  }

  lemma OpenAnsweredInv(s: State, k: Key, m: Message)
    requires Inv(s, []) && s.live && !s.failed && k in s.tui && !s.tui[k].TurnStart?
    ensures Inv(TuiAnswered(s, k, m), []) && TuiAnswered(s, k, m).live && !TuiAnswered(s, k, m).failed
  {
    OtherHeardInv(s, [], k);
    var s1 := Emit(s.(tui := s.tui - {k}), HeardManual(k));
    if s.tui[k].ThreadOpen? {
      var t := if m.thread != NO_NAME then m.thread else s.tui[k].thread;
      Bookkeeping(s1, s1.(current := t), []);
      TouchInv(s1.(current := t), [], t);
    }
  }

  lemma TuiResponseInv(s: State, k: Key, m: Message) returns (rest: seq<Item>)
    requires Inv(s, []) && s.live && !s.failed
    ensures var l := TellTui(if k in s.tui then TuiAnswered(s, k, m) else s, Some(k));
            Inv(l, rest) && l.live && (!l.failed ==> rest == [])
  {
    rest := [];
    if k !in s.tui {
      TellTuiInv(s, [], Some(k));
    } else if s.tui[k].TurnStart? {
      rest := ManualStartAnsweredInv(s, k, s.tui[k].thread, m);
      var l := TuiAnswered(s, k, m);
      if !l.failed {
        FinishTurnInv(l, rest);
        rest := rest[1..];
      }
    } else {
      OpenAnsweredInv(s, k, m);
      TellTuiInv(TuiAnswered(s, k, m), [], Some(k));
    }
  }

  lemma StartedInv(s: State, t: ThreadId, turn: Name) returns (rest: seq<Item>)
    requires Inv(s, []) && s.live && !s.failed
    ensures Inv(Started(s, t, turn), rest) && Started(s, t, turn).live
    ensures !Started(s, t, turn).failed ==> rest == []
  {
    rest := [];
    if t != NO_NAME && turn != NO_NAME {
      Bookkeeping(s, s.(current := t), []);
      SetActiveInv(s.(current := t), [], t, turn);
      var s1 := SetActive(s.(current := t), t, turn);
      SetReadyInv(s1, [], t, true);
      var s2 := SetThread(s1, t, Thread(s1, t).(steerReady := true));
      if Thread(s2, t).pendingStart.None? && Thread(s2, t).queued != [] {
        rest := DrainInv(s2, [], t);
      }
    }
  }

  lemma CompletedInv(s: State, t: ThreadId, turn: Name)
    requires Inv(s, []) && s.live && !s.failed
    ensures Inv(Completed(s, t, turn), []) && Completed(s, t, turn).live
  {
    if t in s.threads && (turn == NO_NAME || s.threads[t].active == turn) {
      SetActiveInv(s, [], t, NO_NAME);
      var s1 := SetActive(s, t, NO_NAME);
      SetReadyInv(s1, [], t, false);
      StartNextIdleInv(SetThread(s1, t, Thread(s1, t).(steerReady := false)), [], t);
    }
  }

  /** Upstream answers only requests it was sent. */
  predicate Answerable(s: State, m: Message) {
    m.key.Some? && m.key.value in s.internal ==> m.key.value in WrittenKeys(s.log)
  }

  lemma UpstreamInv(s: State, m: Message) returns (rest: seq<Item>)
    requires Inv(s, []) && s.live && !s.failed && Answerable(s, m)
    ensures Inv(Upstream(s, m), rest) && Upstream(s, m).live
    ensures !Upstream(s, m).failed ==> rest == []
  {
    rest := [];
    if m.key.Some? && m.key.value in s.internal {
      var k := m.key.value;
      match s.internal[k]
      case Starting(id, deferred) => rest := StartAnsweredInv(s, k, id, deferred, m);
      case Steering(id) => SteerAnsweredInv(s, k, id, m);
      case ManualSteering(key, t) => ManualSteerAnsweredInv(s, k, key, t, m);
    } else if m.key.Some? && (m.hasResult || m.hasError) {
      rest := TuiResponseInv(s, m.key.value, m);
    } else {
      rest := NoticeInv(s, m);
    }
  }

  /** What a message that answers nothing does to the threads. */
  function Noticed(s: State, m: Message): State {
    match m.kind
    case TurnStarted => Started(s, m.thread, m.turn)
    case TurnCompleted => Completed(s, m.thread, m.turn)
    case OtherMethod => s
  }

  lemma NoticeInv(s: State, m: Message) returns (rest: seq<Item>)
    requires Inv(s, []) && s.live && !s.failed
    ensures var l := TellTui(Noticed(s, m), None); Inv(l, rest) && l.live && (!l.failed ==> rest == [])
  {
    rest := NoticedInv(s, m);
    if !Noticed(s, m).failed { TellTuiInv(Noticed(s, m), [], None); }
  }

  lemma NoticedInv(s: State, m: Message) returns (rest: seq<Item>)
    requires Inv(s, []) && s.live && !s.failed
    ensures Inv(Noticed(s, m), rest) && Noticed(s, m).live && (!Noticed(s, m).failed ==> rest == [])
  {
    rest := [];
    match m.kind {
      case TurnStarted => rest := StartedInv(s, m.thread, m.turn);
      case TurnCompleted => CompletedInv(s, m.thread, m.turn);
      case OtherMethod =>
    }
  }

  /* ---- Requests from the TUI ---- */

  /** A TUI request id that was not used in this epoch. */
  predicate NewKey(s: State, key: Key) {
    key.Client? && key !in AskedKeys(s.log)
  }

  lemma AskTurnGround(s: State, key: Key)
    requires Ground(s) && NewKey(s, key) && s.live
    ensures Ground(Emit(s, Asked(key, true)))
  {
    var l := Emit(s, Asked(key, true));
    PlainLog(s.log, Asked(key, true));
    forall u ensures Thread(l, u) == Thread(s, u) {}
    forall u, j ensures Backed(l, u, j) == Backed(s, u, j) {}
    SamePending(s, l);
  }

  /** New work in the hand: what was there before keeps its stage. */
  lemma WelcomeContents(s: State, l: State, hand: seq<Item>)
    requires Staged(s, []) && Asking(s, []) && |hand| == 1
    requires (forall p: Place :: !p.InHand? ==> At(l, hand, p) == At(s, [], p)) && l.internal == s.internal
    requires AskedKeys(s.log) <= AskedKeys(l.log) && s.waiting <= l.waiting
    requires forall d :: Completion(d) != hand[0] ==> StageOf(l.log, d) == StageOf(s.log, d)
    requires match hand[0] case Completion(id) => !Held(s, [], Delivery(id)) && id in l.waiting && StageOf(l.log, id) == Ready
                           case Manual(key, _) => key in AskedKeys(l.log)
    ensures Staged(l, hand) && Asking(l, hand)
  {
    forall p, d | At(l, hand, p) == Some(Delivery(d)) ensures d in l.waiting && StageAt(l, p, d) {
      if !p.InHand? {
        assert At(s, [], p) == Some(Delivery(d));
        assert d in s.waiting && StageAt(s, p, d);
      }
    }
    forall p, j | At(l, hand, p) == Some(Turn(j)) ensures j in AskedKeys(l.log) {
      if !p.InHand? { assert At(s, [], p) == Some(Turn(j)); }
    }
  }

  lemma AskTurnInv(s: State, key: Key, t: ThreadId)
    requires Inv(s, []) && s.live && NewKey(s, key)
    ensures Inv(Emit(s, Asked(key, true)), [Manual(key, t)])
  {
    var hand := [Manual(key, t)];
    var l := Emit(s, Asked(key, true));
    AskTurnGround(s, key);
    PlainLog(s.log, Asked(key, true));
    StayPut(s, [], l);
    assert !Held(l, [], Turn(key));
    assert hand + [] == hand;
    Welcome(l, [], hand);
    WelcomeContents(s, l, hand);
  }

  lemma WriteStartGround(s: State, key: Key, t: ThreadId, l: State)
    requires Ground(s) && s.live && key.Client? && key !in s.tui && key in AskedKeys(s.log)
    requires Thread(s, t).active == NO_NAME && Thread(s, t).pendingStart.None?
    requires var s2 := SetThread(s, t, Thread(s, t).(steerReady := false, pendingStart := Some(key)));
             l == Emit(s2.(tui := s2.tui[key := TurnStart(t)]), SendManual(key, t, Start, key))
    ensures Ground(l)
    ensures forall d :: StageOf(l.log, d) == StageOf(s.log, d)
    ensures AskedKeys(l.log) == AskedKeys(s.log) && OpenTurns(l.log) == OpenTurns(s.log)
  {
    assert OpenStarts(s.log, t) == PendingSet(s, t);
    assert ActiveOf(s.log, t) == NO_NAME;
    PlainLog(s.log, SendManual(key, t, Start, key));
    assert forall u :: Thread(l, u) == if u == t then Thread(s, t).(steerReady := false, pendingStart := Some(key)) else Thread(s, u);
    assert key !in s.internal;
    forall u, j | j != key ensures Backed(l, u, j) == Backed(s, u, j) {}
    forall u ensures Backed(l, u, key) <==> u == t {}
    NewPending(s, l, t, key);
  }

  lemma WriteStartInv(s: State, hand: seq<Item>, key: Key, t: ThreadId, l: State)
    requires Inv(s, hand) && s.live && hand != [] && hand[0] == Manual(key, t) && key.Client?
    requires key !in s.tui && key in AskedKeys(s.log)
    requires Thread(s, t).active == NO_NAME && Thread(s, t).pendingStart.None?
    requires var s2 := SetThread(s, t, Thread(s, t).(steerReady := false, pendingStart := Some(key)));
             l == Emit(s2.(tui := s2.tui[key := TurnStart(t)]), SendManual(key, t, Start, key))
    ensures Inv(l, hand[1..])
  {
    WriteStartGround(s, key, t, l);
    forall p | p != AtTui(key) ensures At(l, hand[1..], p) == At(s, hand, Dropped(p)) {}
    forall p | p != AtTui(key) && !p.InHand? ensures At(l, hand[1..], p) == At(s, hand, p) {}
    PutDown(s, hand, l, AtTui(key));
    PutStaged(s, hand, l, AtTui(key));
    PutAsking(s, hand, l, AtTui(key));
  }

  lemma PlaceTurnInv(s: State, hand: seq<Item>, key: Key, t: ThreadId)
    requires Inv(s, hand) && s.live && !s.failed && hand != [] && hand[0] == Manual(key, t) && key.Client?
    requires key !in s.tui && key in AskedKeys(s.log)
    ensures Inv(PlaceTurn(s, key, t), hand[1..]) && PlaceTurn(s, key, t).live
  {
    var th := Thread(s, t);
    if th.active != NO_NAME && th.steerReady {
      SendManualSteerInv(s, hand, key, t);
    } else if th.active != NO_NAME || th.pendingStart.Some? {
      EnqueueInv(s, hand, t);
    } else {
      var s2 := SetThread(s, t, th.(steerReady := false, pendingStart := Some(key)));
      var l := Emit(s2.(tui := s2.tui[key := TurnStart(t)]), SendManual(key, t, Start, key));
      WriteStartInv(s, hand, key, t, l);
      Bookkeeping(l, Transport(l), hand[1..]);
    }
  }

  lemma ManualStartInv(s: State, key: Key, t: ThreadId)
    requires Inv(s, []) && s.live && !s.failed && NewKey(s, key)
    ensures Inv(ManualStart(s, key, t), []) && ManualStart(s, key, t).live
  {
    var hand := [Manual(key, t)];
    assert hand[1..] == [];
    AskTurnInv(s, key, t);
    PlainLog(s.log, Asked(key, true));
    var s0 := Emit(s, Asked(key, true));
    Bookkeeping(s0, s0.(current := t), hand);
    TouchInv(s0.(current := t), hand, t);
    PlaceTurnInv(SetThread(s0.(current := t), t, Thread(s0, t)), hand, key, t);
  }

  lemma AskOtherGround(s: State, k: Key, request: TuiRequest)
    requires Ground(s) && s.live && !request.TurnStart? && NewKey(s, k)
    ensures var l := Emit(s.(tui := s.tui[k := request]), Asked(k, false));
            && Ground(l) && k !in s.tui && OpenTurns(l.log) == OpenTurns(s.log) && AskedKeys(s.log) <= AskedKeys(l.log)
            && forall d :: StageOf(l.log, d) == StageOf(s.log, d)
  {
    var l := Emit(s.(tui := s.tui[k := request]), Asked(k, false));
    PlainLog(s.log, Asked(k, false));
    assert forall u :: Thread(l, u) == Thread(s, u);
    assert k !in s.tui && k !in s.internal;
    forall u, j ensures Backed(l, u, j) == Backed(s, u, j) {}
    SamePending(s, l);
  }

  lemma AskOtherContents(s: State, k: Key, request: TuiRequest)
    requires Inv(s, []) && s.live && !request.TurnStart? && NewKey(s, k)
    ensures var l := Emit(s.(tui := s.tui[k := request]), Asked(k, false));
            Unique(l, []) && Staged(l, []) && Asking(l, []) && Present(l, [])
  {
    var l := Emit(s.(tui := s.tui[k := request]), Asked(k, false));
    AskOtherGround(s, k, request);
    forall p ensures At(l, [], p) == At(s, [], p) {}
    MovedNothing(s, [], l);
  }

  lemma ForwardInv(s: State, key: Option<Key>, request: TuiRequest)
    requires Inv(s, []) && s.live && !s.failed && !request.TurnStart?
    requires key.Some? ==> NewKey(s, key.value)
    ensures Inv(Forward(s, key, request), []) && Forward(s, key, request).live
  {
    if key.Some? {
      var k := key.value;
      var l := Emit(s.(tui := s.tui[k := request]), Asked(k, false));
      AskOtherGround(s, k, request);
      AskOtherContents(s, k, request);
      assert Forward(s, key, request) == Transport(l);
      Bookkeeping(l, Transport(l), []);
    } else {
      Bookkeeping(s, Transport(s), []);
    }
  }
}
