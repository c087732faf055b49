/** What becomes of queued work. */
module GatewayQueues {
  import opened Prelude
  import opened GatewayLog
  import opened GatewayModel
  import opened GatewayPlaces
  import opened GatewayInvariant
  import opened GatewaySteps
  import opened GatewayHandlers
  import opened GatewayRuns

  /* ---- No stranded queue ---- */

  predicate Strandless(th: ThreadState) {
    th.queued != [] ==> th.pendingStart.Some? || (th.active != NO_NAME && !th.steerReady)
  }

  /** Queued work always waits for an answer to a start, or for the running turn to be announced. */
  predicate NoStrand(threads: map<ThreadId, ThreadState>) {
    forall t :: t in threads ==> Strandless(threads[t])
  }

  /** The message ends a turn whose start was answered but which was never announced. */
  predicate Premature(s: State, m: Message) {
    && !(m.key.Some? && (m.key.value in s.internal || m.hasResult || m.hasError))
    && m.kind == TurnCompleted && m.thread in s.threads
    && var th := s.threads[m.thread];
       (m.turn == NO_NAME || th.active == m.turn) && th.active != NO_NAME && th.pendingStart.None? && !th.steerReady
  }

  predicate Punctual(s: State, events: seq<Event>)
    decreases |events|
  {
    events == [] ||
    (&& (events[0].call.FromUpstream? ==> !Premature(s, events[0].call.message))
     && Punctual(Step(s, events[0]), events[1..]))
  }

  lemma {:induction false} SteerItemsThreads(s: State, items: seq<Item>)
    ensures SteerItems(s, items).threads == s.threads
    decreases |items|
  {
    if items != [] { SteerItemsThreads(SteerItem(s, items[0]), items[1..]); }
  }

  lemma CommitThreads(s: State, id: DeliveryId, to: RowState, action: RowAction, reason: Reason)
    ensures Commit(s, id, to, action, reason).threads == s.threads
  {}

  lemma CloseThreads(s: State, id: DeliveryId, reason: Reason, action: RowAction)
    ensures Reject(s, id, reason).threads == Accept(s, id, action).threads == s.threads
  {
    CommitThreads(s, id, Rejected, NoAction, reason);
    CommitThreads(s, id, Accepted, action, NoReason);
  }

  lemma FailItemThreads(s: State, item: Item, reason: Reason)
    ensures FailItem(s, item, reason).threads == s.threads
  {
    if item.Completion? { CloseThreads(s, item.id, reason, NoAction); }
  }

  lemma {:induction false} FailItemsThreads(s: State, items: seq<Item>, reason: Reason)
    ensures FailItems(s, items, reason).threads == s.threads
    decreases |items|
  {
    if items != [] {
      FailItemThreads(s, items[0], reason);
      FailItemsThreads(FailItem(s, items[0], reason), items[1..], reason);
    }
  }

  lemma DrainThreads(s: State, t: ThreadId, reason: Reason)
    ensures Drain(s, t).threads == FailQueued(s, t, reason).threads == s.threads[t := Thread(s, t).(queued := [])]
  {
    SteerItemsThreads(TakeQueue(s, t), Thread(s, t).queued);
    FailItemsThreads(TakeQueue(s, t), Thread(s, t).queued, reason);
    FailItemsThreads(TakeQueue(s, t), Thread(s, t).queued, ActiveTurnMissing);
  }

  lemma SendThreads(s: State, id: DeliveryId, action: Action, deferred: bool)
    ensures var l := SendCompletion(s, id, action, deferred);
            var t := id.identity.thread;
            var started := s.threads[t := Thread(s, t).(steerReady := false, pendingStart := Some(Managed(s.nextKey)))];
            && (l.threads == s.threads || (action.Start? && l.threads == started))
            && (action.Start? && !l.failed ==> l.threads == started)
  {
    if !s.failed && Fits(id) {
      var t, k := id.identity.thread, Managed(s.nextKey);
      var s1 := s.(nextKey := s.nextKey + 1,
                   internal := s.internal[k := if action.Steer? then Steering(id) else Starting(id, deferred)]);
      var s2 := if action.Start? then SetThread(s1, t, Thread(s1, t).(steerReady := false, pendingStart := Some(k))) else s1;
      CommitThreads(s2, id, Sent, RowActionOf(action), NoReason);
    }
  }

  lemma FailQueuedStrand(s: State, t: ThreadId, reason: Reason)
    requires forall u :: u in s.threads && u != t ==> Strandless(s.threads[u])
    ensures NoStrand(FailQueued(s, t, reason).threads)
  {
    DrainThreads(s, t, reason);
  }

  /** An answered start: the queue is drained if the turn was announced, and waits for that otherwise. */
  lemma DrainIfReady(s: State, t: ThreadId)
    requires (forall u :: u in s.threads && u != t ==> Strandless(s.threads[u])) && Thread(s, t).active != NO_NAME
    ensures NoStrand((if Thread(s, t).steerReady then Drain(s, t) else s).threads)
  {
    DrainThreads(s, t, NoReason);
  }

  lemma StartRefusedStrand(s: State, id: DeliveryId, t: ThreadId, why: Reason, whyQueued: Reason)
    requires forall u :: u in s.threads && u != t ==> Strandless(s.threads[u])
    ensures NoStrand(FailQueued(Reject(s, id, why), t, whyQueued).threads)
  {
    CloseThreads(s, id, why, NoAction);
    FailQueuedStrand(Reject(s, id, why), t, whyQueued);
  }

  lemma StartAcceptedStrand(s: State, id: DeliveryId, t: ThreadId, action: RowAction)
    requires (forall u :: u in s.threads && u != t ==> Strandless(s.threads[u])) && Thread(s, t).active != NO_NAME
    ensures var s2 := Accept(s, id, action); NoStrand((if Thread(s2, t).steerReady then Drain(s2, t) else s2).threads)
  {
    CloseThreads(s, id, NoReason, action);
    DrainIfReady(Accept(s, id, action), t);
  }

  lemma StartAnsweredStrand(s: State, id: DeliveryId, deferred: bool, m: Message)
    requires NoStrand(s.threads)
    ensures NoStrand(StartAnswered(s, id, deferred, m).threads)
  {
    var t := id.identity.thread;
    var s1 := SetThread(s, t, Thread(s, t).(pendingStart := None));
    if m.hasError {
      StartRefusedStrand(s1, id, t, TurnStartRejected, CompletionStartRejected);
    } else if m.turn == NO_NAME {
      StartRefusedStrand(s1, id, t, TurnStartInvalid, CompletionStartInvalid);
    } else {
      StartAcceptedStrand(SetActive(s1, t, m.turn), id, t, if deferred then ByStartAfterRefusal else ByStart);
    }
  }

  lemma ManualStartAnsweredStrand(s: State, k: Key, t: ThreadId, m: Message)
    requires NoStrand(s.threads)
    ensures NoStrand(ManualStartAnswered(s, k, t, m).threads)
  {
    var th := Thread(s, t);
    var s1 := SetThread(s, t, if th.pendingStart == Some(k) then th.(pendingStart := None) else th);
    if m.hasError {
      FailQueuedStrand(s1, t, ManualStartRejected);
    } else if m.turn == NO_NAME {
      FailQueuedStrand(s1, t, ManualStartInvalid);
    } else {
      DrainIfReady(SetActive(s1, t, m.turn), t);
    }
  }

  /** Starting an idle completion frees its thread's queue from being stranded. */
  lemma StartNextIdleStrand(s: State, t: ThreadId)
    requires forall u :: u in s.threads && u != t ==> Strandless(s.threads[u])
    requires Strandless(Thread(s, t)) || (Thread(s, t).active == NO_NAME && Thread(s, t).idle != [])
    requires forall id :: id in Thread(s, t).idle ==> id.identity.thread == t
    requires !StartNextIdle(s, t).failed
    ensures NoStrand(StartNextIdle(s, t).threads)
  {
    var th := Thread(s, t);
    if th.active == NO_NAME && th.pendingStart.None? && th.idle != [] {
      assert th.idle[0] in th.idle;
      SendThreads(SetThread(s, t, th.(idle := th.idle[1..])), th.idle[0], Start, true);
    }
  }

  lemma IdleThreads(s: State, t: ThreadId)
    requires Inv(s, [])
    ensures forall id :: id in Thread(s, t).idle ==> id.identity.thread == t
  {
    forall id | id in Thread(s, t).idle ensures id.identity.thread == t {
      var i :| 0 <= i < |Thread(s, t).idle| && Thread(s, t).idle[i] == id;
      assert At(s, [], InIdle(t, i)) == Some(Delivery(id));
      assert StageAt(s, InIdle(t, i), id);
    }
  }

  lemma SteerAnsweredStrand(s: State, id: DeliveryId, m: Message)
    requires NoStrand(s.threads)
    requires forall d :: d in Thread(s, id.identity.thread).idle ==> d.identity.thread == id.identity.thread
    requires !SteerAnswered(s, id, m).failed
    ensures NoStrand(SteerAnswered(s, id, m).threads)
  {
    var t := id.identity.thread;
    var th := Thread(s, t);
    if m.hasError {
      StartNextIdleStrand(SetThread(s, t, th.(idle := th.idle + [id])), t);
    } else {
      CloseThreads(SetThread(s, t, th), id, SteerIdMismatch, BySteer);
    }
  }

  lemma InternalAnsweredStrand(s: State, k: Key, m: Message)
    requires Inv(s, []) && NoStrand(s.threads) && k in s.internal && !InternalAnswered(s, k, m).failed
    ensures NoStrand(InternalAnswered(s, k, m).threads)
  {
    var s1 := s.(internal := s.internal - {k});
    match s.internal[k]
    case Starting(id, deferred) => StartAnsweredStrand(Emit(s1, Heard(id, k, !m.hasError)), id, deferred, m);
    case ManualSteering(key, t) =>
    case Steering(id) =>
      IdleThreads(s, id.identity.thread);
      SteerAnsweredStrand(Emit(s1, Heard(id, k, !m.hasError)), id, m);
  }

  lemma TuiAnsweredStrand(s: State, k: Key, m: Message)
    requires NoStrand(s.threads) && k in s.tui
    ensures NoStrand(TuiAnswered(s, k, m).threads)
  {
    var s1 := Emit(s.(tui := s.tui - {k}), HeardManual(k));
    if s.tui[k].TurnStart? { ManualStartAnsweredStrand(s1, k, s.tui[k].thread, m); }
  }

  lemma StartedStrand(s: State, t: ThreadId, turn: Name)
    requires NoStrand(s.threads)
    ensures NoStrand(Started(s, t, turn).threads)
  {
    if t != NO_NAME && turn != NO_NAME {
      var s1 := SetActive(s.(current := t), t, turn);
      DrainThreads(SetThread(s1, t, Thread(s1, t).(steerReady := true)), t, NoReason);
    }
  }

  function Unended(s: State, t: ThreadId): State {
    var s1 := SetActive(s, t, NO_NAME);
    SetThread(s1, t, Thread(s1, t).(steerReady := false))
  }

  /** The turn is over, and no idle completion takes its place. */
  predicate LeftBehind(th: ThreadState) {
    th.queued != [] && th.pendingStart.None? && th.idle == []
  }

  lemma UnendedStrand(s: State, t: ThreadId)
    requires Inv(s, []) && NoStrand(s.threads) && t in s.threads && !StartNextIdle(Unended(s, t), t).failed
    ensures NoStrand(StartNextIdle(Unended(s, t), t).threads) <==> !LeftBehind(s.threads[t])
  {
    var s2, th := Unended(s, t), s.threads[t];
    assert s2.threads == s.threads[t := th.(active := NO_NAME, steerReady := false)];
    if LeftBehind(th) {
      assert StartNextIdle(s2, t) == s2 && !Strandless(s2.threads[t]);
    } else {
      IdleThreads(s, t);
      StartNextIdleStrand(s2, t);
    }
  }

  /** The end of a turn strands a queue exactly when the turn had not been announced, its start had
      been answered, something was queued, and no idle completion takes over. */
  lemma CompletedStrandsExactly(s: State, t: ThreadId, turn: Name)
    requires Inv(s, []) && NoStrand(s.threads) && !Completed(s, t, turn).failed
    ensures NoStrand(Completed(s, t, turn).threads) <==>
            !(t in s.threads && (turn == NO_NAME || s.threads[t].active == turn) && LeftBehind(s.threads[t]))
  {
    if t in s.threads && (turn == NO_NAME || s.threads[t].active == turn) {
      assert Completed(s, t, turn) == StartNextIdle(Unended(s, t), t);
      UnendedStrand(s, t);
    }
  }

  lemma UpstreamStrand(s: State, m: Message)
    requires Inv(s, []) && NoStrand(s.threads) && !Premature(s, m) && !Upstream(s, m).failed
    ensures NoStrand(Upstream(s, m).threads)
  {
    if m.key.Some? && m.key.value in s.internal {
      InternalAnsweredStrand(s, m.key.value, m);
    } else if m.key.Some? && (m.hasResult || m.hasError) {
      if m.key.value in s.tui { TuiAnsweredStrand(s, m.key.value, m); }
    } else {
      match m.kind {
        case TurnStarted => StartedStrand(s, m.thread, m.turn);
        case TurnCompleted =>
          assert !Completed(s, m.thread, m.turn).failed;
          CompletedStrandsExactly(s, m.thread, m.turn);
        case OtherMethod =>
      }
    }
  }

  lemma ManualStartStrand(s: State, key: Key, t: ThreadId)
    requires NoStrand(s.threads)
    ensures NoStrand(ManualStart(s, key, t).threads)
  {
    var s0 := Emit(s, Asked(key, true));
    var s1 := SetThread(s0.(current := t), t, Thread(s0, t));
    PlaceTurnStrand(s1, key, t);
  }

  lemma PlaceTurnStrand(s: State, key: Key, t: ThreadId)
    requires NoStrand(s.threads)
    ensures NoStrand(PlaceTurn(s, key, t).threads)
  {
    var th := Thread(s, t);
    assert SendManualSteer(s, key, t).threads == s.threads;
    var started := th.(steerReady := false, pendingStart := Some(key));
    var queued := th.(queued := th.queued + [Manual(key, t)]);
    assert PlaceTurn(s, key, t).threads in {s.threads, s.threads[t := started], s.threads[t := queued]};
  }

  lemma PlaceStrand(s: State, id: DeliveryId)
    requires NoStrand(s.threads)
    ensures NoStrand(PlaceDelivery(s, id).threads)
  {
    SendThreads(s, id, Steer, false);
    SendThreads(s, id, Start, false);
  }

  lemma AdmittedThreads(s: State, id: DeliveryId)
    ensures Admitted(s, id).threads == s.threads
  {
    CommitThreads(s, id, Prepared, NoAction, NoReason);
  }

  lemma DeliverStrand(s: State, id: DeliveryId)
    requires NoStrand(s.threads)
    ensures NoStrand(Deliver(s, id).threads)
  {
    match Turned(s, id)
    case Some(answered) => assert answered.threads == s.threads;
    case None => EnterStrand(s, id);
  }

  lemma EnterStrand(s: State, id: DeliveryId)
    requires NoStrand(s.threads)
    ensures NoStrand(Enter(s, id).threads)
  {
    var s1, t := Admitted(s, id), id.identity.thread;
    AdmittedThreads(s, id);
    PlaceStrand(SetThread(s1, t, Thread(s1, t)), id);
  }

  lemma SettleStrand(s: State, call: Call)
    requires NoStrand(s.threads) || (s.failed && s.live && !call.DoDeliver?)
    ensures NoStrand(Settle(s, call).threads)
  {}

  lemma HandleStrand(s: State, call: Call)
    requires Inv(s, []) && !s.failed && NoStrand(s.threads) && Admissible(s, call)
    requires call.FromUpstream? ==> !Premature(s, call.message)
    ensures var l := Handle(s, call); NoStrand(l.threads) || (l.failed && l.live && !call.DoDeliver?)
  {
    match call
    case TuiTurnStart(key, t) => ManualStartStrand(s, key, t);
    case FromUpstream(m) =>
      if s.live {
        var rest := UpstreamInv(s, m);
        if !Upstream(s, m).failed { UpstreamStrand(s, m); }
      }
    case DoDeliver(id) => DeliverStrand(s, id);
    case _ =>
  }

  lemma PerformStrand(s: State, call: Call, fuel: nat)
    requires Inv(s, []) && NoStrand(s.threads) && Admissible(s, call)
    requires call.FromUpstream? ==> !Premature(s, call.message)
    ensures NoStrand(Perform(s, call, fuel).threads)
  {
    var s0 := s.(fuel := fuel, failed := false);
    Bookkeeping(s, s0, []);
    HandleStrand(s0, call);
    SettleStrand(Handle(s0, call), call);
  }

  lemma {:induction false} RunStrand(s: State, events: seq<Event>)
    requires Inv(s, []) && NoStrand(s.threads) && Lawful(s, events) && Punctual(s, events)
    ensures NoStrand(Continue(s, events).threads)
    decreases |events|
  {
    if events != [] {
      StepInv(s, events[0]);
      if events[0].Run? { PerformStrand(s, events[0].call, events[0].fuel); }
      RunStrand(Step(s, events[0]), events[1..]);
    }
  }

  /** If upstream ends turns in order, queued work is never stranded. */
  lemma NoStrandedQueue(events: seq<Event>, t: ThreadId)
    requires Lawful(START, events) && Punctual(START, events)
    ensures var th := Thread(Continue(START, events), t);
            th.queued != [] ==> th.pendingStart.Some? || (th.active != NO_NAME && !th.steerReady)
  {
    FreshInv(START);
    RunStrand(START, events);
    assert Strandless(Thread(Continue(START, events), t));
  }
}
