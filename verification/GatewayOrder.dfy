/** The order in which queued work leaves a thread's queue, and what a refused start does to it. */
module GatewayOrder {
  import opened Prelude
  import opened GatewayLog
  import opened GatewayModel
  import opened GatewayPlaces
  import opened GatewayInvariant
  import opened GatewaySteps
  import opened GatewayHandlers
  import opened GatewayQueues

  datatype Request = Request(work: Work, action: Action)

  function AddRequest(before: seq<Request>, e: Effect): seq<Request> {
    match e
    case Send(id, action, _) => before + [Request(Delivery(id), action)]
    case SendManual(_, _, action, request) => before + [Request(Turn(request), action)]
    case _ => before
  }

  /** The turn requests written upstream, in order. */
  function Requests(log: seq<Effect>): seq<Request> {
    if log == [] then [] else AddRequest(Requests(log[..|log| - 1]), log[|log| - 1])
  }

  function Steers(items: seq<Item>): (r: seq<Request>)
    ensures |r| == |items| && forall i :: 0 <= i < |items| ==> r[i] == Request(WorkOf(items[i]), Steer)
  {
    if items == [] then [] else [Request(WorkOf(items[0]), Steer)] + Steers(items[1..])
  }

  lemma RequestsNext(log: seq<Effect>, e: Effect)
    ensures Requests(log + [e]) == AddRequest(Requests(log), e)
  {
    assert (log + [e])[..|log|] == log;
  }

  lemma SendEffects(s: State, id: DeliveryId, action: Action, deferred: bool) returns (row: Row)
    requires !SendCompletion(s, id, action, deferred).failed
    ensures !s.failed
    ensures SendCompletion(s, id, action, deferred).log == s.log + [Persist(id, row)] + [Send(id, action, Managed(s.nextKey))]
  {
    row := Transition(s.ledger, id, Sent, id.identity, RowActionOf(action), NoReason).value[id];
  }

  lemma SendOrder(s: State, id: DeliveryId, action: Action, deferred: bool)
    requires !SendCompletion(s, id, action, deferred).failed
    ensures !s.failed
    ensures Requests(SendCompletion(s, id, action, deferred).log) == Requests(s.log) + [Request(Delivery(id), action)]
  {
    var row := SendEffects(s, id, action, deferred);
    RequestsNext(s.log, Persist(id, row));
    RequestsNext(s.log + [Persist(id, row)], Send(id, action, Managed(s.nextKey)));
  }

  lemma ManualSteerOrder(s: State, key: Key, t: ThreadId)
    requires !SendManualSteer(s, key, t).failed
    ensures !s.failed
    ensures Requests(SendManualSteer(s, key, t).log) == Requests(s.log) + [Request(Turn(key), Steer)]
  {
    RequestsNext(s.log, SendManual(Managed(s.nextKey), t, Steer, key));
  }

  lemma SteerItemOrder(s: State, item: Item)
    requires !SteerItem(s, item).failed
    ensures !s.failed && Requests(SteerItem(s, item).log) == Requests(s.log) + [Request(WorkOf(item), Steer)]
  {
    match item
    case Manual(key, t) => ManualSteerOrder(s, key, t);
    case Completion(id) => SendOrder(s, id, Steer, false);
  }

  lemma FailureStays(s: State, items: seq<Item>, reason: Reason)
    requires s.failed
    ensures SteerItems(s, items).failed && FailItems(s, items, reason).failed
    decreases |items|
  {
    FailedStops(s, items, reason);
  }

  lemma {:induction false} SteerItemsOrder(s: State, items: seq<Item>)
    requires !SteerItems(s, items).failed
    ensures Requests(SteerItems(s, items).log) == Requests(s.log) + Steers(items)
    decreases |items|
  {
    if items != [] {
      var s1 := SteerItem(s, items[0]);
      if s1.failed { FailureStays(s1, items[1..], NoReason); }
      SteerItemOrder(s, items[0]);
      SteerItemsOrder(s1, items[1..]);
    }
  }

  lemma DrainOrder(s: State, t: ThreadId)
    requires Thread(s, t).active != NO_NAME && !Drain(s, t).failed
    ensures Thread(Drain(s, t), t).queued == []
    ensures Requests(Drain(s, t).log) == Requests(s.log) + Steers(Thread(s, t).queued)
  {
    DrainThreads(s, t, NoReason);
    SteerItemsOrder(TakeQueue(s, t), Thread(s, t).queued);
  }

  /** The announcement comes second: everything queued is steered into the turn, in list order. */
  lemma AnnouncedSecond(s: State, t: ThreadId, turn: Name)
    requires t != NO_NAME && turn != NO_NAME && Thread(s, t).pendingStart.None? && !s.failed
    requires !Started(s, t, turn).failed
    ensures Thread(Started(s, t, turn), t).queued == []
    ensures Requests(Started(s, t, turn).log) == Requests(s.log) + Steers(Thread(s, t).queued)
  {
    var s1 := SetActive(s.(current := t), t, turn);
    RequestsNext(s.log, Active(t, turn));
    var s2 := SetThread(s1, t, Thread(s1, t).(steerReady := true));
    assert Requests(s2.log) == Requests(s.log);
    if Thread(s2, t).queued != [] { DrainOrder(s2, t); }
  }

  /** The answer to a manual start comes second. */
  lemma ManualAnswerSecond(s: State, k: Key, t: ThreadId, m: Message)
    requires k in s.tui && s.tui[k] == TurnStart(t) && Thread(s, t).steerReady && !m.hasError && m.turn != NO_NAME
    requires !TuiAnswered(s, k, m).failed
    ensures Thread(TuiAnswered(s, k, m), t).queued == []
    ensures Requests(TuiAnswered(s, k, m).log) == Requests(s.log) + Steers(Thread(s, t).queued)
  {
    var s1 := Emit(s.(tui := s.tui - {k}), HeardManual(k));
    RequestsNext(s.log, HeardManual(k));
    var th := Thread(s1, t);
    var s2 := SetThread(s1, t, if th.pendingStart == Some(k) then th.(pendingStart := None) else th);
    RequestsNext(s2.log, Active(t, m.turn));
    DrainOrder(SetActive(s2, t, m.turn), t);
  }

  lemma CommitEffects(s: State, id: DeliveryId, to: RowState, action: RowAction, reason: Reason) returns (row: Row)
    ensures var l := Commit(s, id, to, action, reason).log; l == s.log || l == s.log + [Persist(id, row)]
  {
    row := Row(to, id.identity, action, reason);
    match Transition(s.ledger, id, to, id.identity, action, reason)
    case Ok(rows) => row := rows[id];
    case Err(_) =>
  }

  lemma CommitWritesNothing(s: State, id: DeliveryId, to: RowState, action: RowAction, reason: Reason)
    ensures Requests(Commit(s, id, to, action, reason).log) == Requests(s.log)
    ensures OpenTurns(Commit(s, id, to, action, reason).log) == OpenTurns(s.log)
  {
    var row := CommitEffects(s, id, to, action, reason);
    RequestsNext(s.log, Persist(id, row));
    assert (s.log + [Persist(id, row)])[..|s.log|] == s.log;
  }

  lemma AcceptRequests(s: State, id: DeliveryId, action: RowAction)
    ensures Requests(Accept(s, id, action).log) == Requests(s.log)
  {
    CommitWritesNothing(s, id, Accepted, action, NoReason);
    var status := AcceptLog(s, id, action);
    ReplyNext(Commit(s, id, Accepted, action, NoReason).log, id, status);
  }

  lemma AcceptLog(s: State, id: DeliveryId, action: RowAction) returns (status: Status)
    ensures Accept(s, id, action).log == Commit(s, id, Accepted, action, NoReason).log + [Reply(id, status)]
  {
    status := if Commit(s, id, Accepted, action, NoReason).failed then SaysAmbiguous else SaysAccepted;
  }

  /** The answer to a completion's start comes second. */
  lemma StartAnswerSecond(s: State, k: Key, id: DeliveryId, deferred: bool, m: Message)
    requires k in s.internal && s.internal[k] == Starting(id, deferred) && !m.hasError && m.turn != NO_NAME
    requires Thread(s, id.identity.thread).steerReady && !InternalAnswered(s, k, m).failed
    ensures var t := id.identity.thread;
            && Thread(InternalAnswered(s, k, m), t).queued == []
            && Requests(InternalAnswered(s, k, m).log) == Requests(s.log) + Steers(Thread(s, t).queued)
  {
    var t := id.identity.thread;
    var s1 := StartHeard(s, k, id, true);
    RequestsNext(s.log, Heard(id, k, true));
    RequestsNext(s1.log, Active(t, m.turn));
    var action := if deferred then ByStartAfterRefusal else ByStart;
    var s2 := SetActive(s1, t, m.turn);
    AcceptRequests(s2, id, action);
    CloseThreads(s2, id, NoReason, action);
    AcceptedForm(s, k, id, deferred, m, action);
    DrainOrder(Accept(s2, id, action), t);
  }

  lemma AcceptedForm(s: State, k: Key, id: DeliveryId, deferred: bool, m: Message, action: RowAction)
    requires k in s.internal && s.internal[k] == Starting(id, deferred) && !m.hasError && m.turn != NO_NAME
    requires action == (if deferred then ByStartAfterRefusal else ByStart) && Thread(s, id.identity.thread).steerReady
    ensures var t := id.identity.thread;
            InternalAnswered(s, k, m) == Drain(Accept(SetActive(StartHeard(s, k, id, true), t, m.turn), id, action), t)
  {
    CloseThreads(SetActive(StartHeard(s, k, id, true), id.identity.thread, m.turn), id, NoReason, action);
  }

  /* ---- A refused start ---- */

  /** What became of an item that was failed: its row is rejected, or its asker has been told. */
  predicate Failed(log: seq<Effect>, item: Item) {
    match item
    case Completion(id) => StageOf(log, id) == Closed(false)
    case Manual(key, _) => key !in OpenTurns(log)
  }

  lemma RejectRequests(s: State, id: DeliveryId, reason: Reason)
    ensures Requests(Reject(s, id, reason).log) == Requests(s.log)
    ensures OpenTurns(Reject(s, id, reason).log) == OpenTurns(s.log)
  {
    var l := Commit(s, id, Rejected, NoAction, reason).log;
    CommitWritesNothing(s, id, Rejected, NoAction, reason);
    RejectLog(s, id, reason);
    ReplyNext(l, id, SaysRejected);
  }

  lemma RejectLog(s: State, id: DeliveryId, reason: Reason)
    ensures Reject(s, id, reason).log == Commit(s, id, Rejected, NoAction, reason).log + [Reply(id, SaysRejected)]
  {}

  lemma ReplyNext(log: seq<Effect>, id: DeliveryId, status: Status)
    ensures Requests(log + [Reply(id, status)]) == Requests(log) && OpenTurns(log + [Reply(id, status)]) == OpenTurns(log)
  {
    assert (log + [Reply(id, status)])[..|log|] == log;
  }

  lemma {:induction false} FailItemsRequests(s: State, items: seq<Item>, reason: Reason)
    ensures Requests(FailItems(s, items, reason).log) == Requests(s.log)
    decreases |items|
  {
    if items != [] {
      match items[0] {
        case Manual(key, _) => RequestsNext(s.log, Told(key));
        case Completion(id) => RejectRequests(s, id, reason);
      }
      FailItemsRequests(FailItem(s, items[0], reason), items[1..], reason);
    }
  }

  lemma FailItemOutcome(s: State, hand: seq<Item>, reason: Reason)
    requires Inv(s, hand) && s.live && !s.failed && hand != [] && AllReady(s.log, hand, 1)
    ensures var l := FailItem(s, hand[0], reason);
            Failed(l.log, hand[0]) && OpenTurns(l.log) <= OpenTurns(s.log)
  {
    FailItemInv(s, hand, reason);
    match hand[0]
    case Manual(key, _) => PlainLog(s.log, Told(key));
    case Completion(id) => RejectRequests(s, id, reason);
  }

  /** The items of a hand are different works. */
  lemma HandDistinct(s: State, hand: seq<Item>, i: nat, j: nat)
    requires Unique(s, hand) && i < j < |hand|
    ensures WorkOf(hand[i]) != WorkOf(hand[j])
  {
    assert At(s, hand, InHand(i)) == Some(WorkOf(hand[i])) && At(s, hand, InHand(j)) == Some(WorkOf(hand[j]));
  }

  lemma HeadOnce(s: State, hand: seq<Item>)
    requires Unique(s, hand) && hand != []
    ensures forall j :: 0 <= j < |hand| - 1 ==> hand[1..][j] != hand[0]
  {
    forall j | 0 <= j < |hand| - 1 ensures hand[1..][j] != hand[0] { HandDistinct(s, hand, 0, j + 1); }
  }

  /** What one item came to survives the failing of the others. */
  lemma {:induction false} FailedLasts(s: State, hand: seq<Item>, n: nat, reason: Reason, item: Item)
    requires Inv(s, hand) && s.live && n <= |hand| && AllReady(s.log, hand, n)
    requires Failed(s.log, item) && (forall i :: 0 <= i < n ==> hand[i] != item)
    requires !FailItems(s, hand[..n], reason).failed
    ensures Failed(FailItems(s, hand[..n], reason).log, item)
    decreases n
  {
    if n > 0 {
      assert hand[0] != item;
      FailFirst(s, hand, n, reason);
      StaysFailed(s, hand, reason, item);
      FailedLasts(FailItem(s, hand[0], reason), hand[1..], n - 1, reason, item);
    }
  }

  lemma StaysFailed(s: State, hand: seq<Item>, reason: Reason, item: Item)
    requires Inv(s, hand) && s.live && !s.failed && hand != [] && AllReady(s.log, hand, 1)
    requires Failed(s.log, item) && hand[0] != item
    ensures Failed(FailItem(s, hand[0], reason).log, item)
  {
    FailItemInv(s, hand, reason);
    FailItemOutcome(s, hand, reason);
  }

  lemma {:induction false} FailItemsOutcome(s: State, hand: seq<Item>, n: nat, reason: Reason, i: nat)
    requires Inv(s, hand) && s.live && i < n <= |hand| && AllReady(s.log, hand, n)
    requires !FailItems(s, hand[..n], reason).failed
    ensures Failed(FailItems(s, hand[..n], reason).log, hand[i])
    decreases n
  {
    var s1, rest := FailItem(s, hand[0], reason), hand[1..];
    FailFirst(s, hand, n, reason);
    if i == 0 {
      HeadOnce(s, hand);
      FailedLasts(s1, rest, n - 1, reason, hand[0]);
    } else {
      FailItemsOutcome(s1, rest, n - 1, reason, i - 1);
    }
  }

  /** Failing the first item leaves the others to be failed in the same way. */
  lemma FailFirst(s: State, hand: seq<Item>, n: nat, reason: Reason)
    requires Inv(s, hand) && s.live && 0 < n <= |hand| && AllReady(s.log, hand, n)
    requires !FailItems(s, hand[..n], reason).failed
    ensures var s1, rest := FailItem(s, hand[0], reason), hand[1..];
            && !s.failed && Inv(s1, rest) && s1.live && AllReady(s1.log, rest, n - 1) && Failed(s1.log, hand[0])
            && FailItems(s, hand[..n], reason) == FailItems(s1, rest[..n - 1], reason)
  {
    if s.failed { FailedStops(s, hand[..n], reason); }
    FailItemInv(s, hand, reason);
    FailItemOutcome(s, hand, reason);
    OthersReady(s, hand, n, FailItem(s, hand[0], reason).log);
    FirstOf(s, hand, n, reason);
  }

  /** Failing a queue writes nothing upstream and leaves nothing of it unresolved. */
  lemma FailQueuedOutcome(s: State, hand: seq<Item>, t: ThreadId, reason: Reason)
    requires Inv(s, hand) && s.live && !FailQueued(s, t, reason).failed
    ensures var l, queue := FailQueued(s, t, reason), Thread(s, t).queued;
            && Thread(l, t).queued == []
            && Requests(l.log) == Requests(s.log)
            && (forall i :: 0 <= i < |queue| ==> Failed(l.log, queue[i]))
  {
    var queue := Thread(s, t).queued;
    var more := queue + hand;
    TakeQueueInv(s, hand, t);
    assert more[..|queue|] == queue;
    forall i | 0 <= i < |queue| ensures Failed(FailQueued(s, t, reason).log, queue[i]) {
      FailItemsOutcome(TakeQueue(s, t), more, |queue|, reason, i);
    }
    FailItemsRequests(TakeQueue(s, t), queue, reason);
    DrainThreads(s, t, reason);
  }

  /** A refused manual start fails every queued item. */
  lemma RefusedManualStart(s: State, k: Key, t: ThreadId, m: Message)
    requires Inv(s, []) && s.live && !s.failed && k in s.tui && s.tui[k] == TurnStart(t)
    requires m.hasError || m.turn == NO_NAME
    requires !TuiAnswered(s, k, m).failed
    ensures var l, queue := TuiAnswered(s, k, m), Thread(s, t).queued;
            && Thread(l, t).queued == [] && Thread(l, t).pendingStart.None?
            && Requests(l.log) == Requests(s.log)
            && (forall i :: 0 <= i < |queue| ==> Failed(l.log, queue[i]))
  {
    var s1 := TurnHeard(s, k, t);
    TurnHeardInv(s, [], k, t);
    RequestsNext(s.log, HeardManual(k));
    var reason := if m.hasError then ManualStartRejected else ManualStartInvalid;
    assert TuiAnswered(s, k, m) == FailQueued(s1, t, reason);
    DrainThreads(s1, t, reason);
    assert [Manual(k, t)] + [] == [Manual(k, t)];
    FailQueuedOutcome(s1, [Manual(k, t)], t, reason);
  }

  /** A refused completion start is rejected itself and fails every queued item. */
  lemma RefusedCompletionStart(s: State, k: Key, id: DeliveryId, deferred: bool, m: Message)
    requires Inv(s, []) && s.live && !s.failed && k in s.internal && s.internal[k] == Starting(id, deferred)
    requires k in WrittenKeys(s.log) && (m.hasError || m.turn == NO_NAME)
    requires !InternalAnswered(s, k, m).failed
    ensures var t := id.identity.thread;
            var l, queue := InternalAnswered(s, k, m), Thread(s, t).queued;
            && Thread(l, t).queued == [] && Thread(l, t).pendingStart.None?
            && Requests(l.log) == Requests(s.log)
            && (forall i :: 0 <= i < |queue| ==> Failed(l.log, queue[i]))
  {
    var t := id.identity.thread;
    var s1 := StartHeard(s, k, id, !m.hasError);
    StartHeardInv(s, [], k, id, !m.hasError);
    StartHeardParts(s, k, id, !m.hasError);
    var why := if m.hasError then TurnStartRejected else TurnStartInvalid;
    var whyQueued := if m.hasError then CompletionStartRejected else CompletionStartInvalid;
    assert [Completion(id)] + [] == [Completion(id)];
    RefusedForm(s, k, id, deferred, m, why, whyQueued);
    RejectThenFail(s1, id, t, why, whyQueued);
  }

  lemma StartHeardParts(s: State, k: Key, id: DeliveryId, ok: bool)
    requires k in s.internal
    ensures var t := id.identity.thread;
            && Thread(StartHeard(s, k, id, ok), t) == Thread(s, t).(pendingStart := None)
            && Requests(StartHeard(s, k, id, ok).log) == Requests(s.log)
  {
    RequestsNext(s.log, Heard(id, k, ok));
  }

  lemma RefusedForm(s: State, k: Key, id: DeliveryId, deferred: bool, m: Message, why: Reason, whyQueued: Reason)
    requires k in s.internal && s.internal[k] == Starting(id, deferred) && (m.hasError || m.turn == NO_NAME)
    requires why == if m.hasError then TurnStartRejected else TurnStartInvalid
    requires whyQueued == if m.hasError then CompletionStartRejected else CompletionStartInvalid
    ensures InternalAnswered(s, k, m) == FailQueued(Reject(StartHeard(s, k, id, !m.hasError), id, why), id.identity.thread, whyQueued)
  {}

  lemma RejectThenFail(s: State, id: DeliveryId, t: ThreadId, why: Reason, whyQueued: Reason)
    requires Inv(s, [Completion(id)]) && s.live && !s.failed && StageOf(s.log, id) in {Answered, Denied}
    requires !FailQueued(Reject(s, id, why), t, whyQueued).failed
    ensures var l, queue := FailQueued(Reject(s, id, why), t, whyQueued), Thread(s, t).queued;
            && l.threads == s.threads[t := Thread(s, t).(queued := [])]
            && Requests(l.log) == Requests(s.log)
            && (forall i :: 0 <= i < |queue| ==> Failed(l.log, queue[i]))
  {
    assert [Completion(id)][1..] == [];
    RejectInv(s, [Completion(id)], id, why);
    RejectRequests(s, id, why);
    CloseThreads(s, id, why, NoAction);
    DrainThreads(Reject(s, id, why), t, whyQueued);
    FailQueuedOutcome(Reject(s, id, why), [], t, whyQueued);
  }
}
