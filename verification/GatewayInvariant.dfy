/** The gateway's invariant and what each small step of a handler does to it. */
module GatewayInvariant {
  import opened Prelude
  import opened GatewayLog
  import opened GatewayModel
  import opened GatewayPlaces

  /* ---- The invariant ---- */

  ghost predicate Durable(s: State) {
    Legal(s.log) && s.ledger == Replay(s.log)
  }

  predicate Quiet(s: State) {
    !s.live ==> s.current == NO_NAME && s.threads == map[] && s.tui == map[] && s.internal == map[] && s.waiting == {}
  }

  /** Managed ids are used once, in order; TUI ids are the client's own. */
  ghost predicate Keys(s: State) {
    && (forall k :: k in s.internal ==> k.Managed? && k.n < s.nextKey)
    && (forall k :: k in WrittenKeys(s.log) && k.Managed? ==> k.n < s.nextKey)
    && (forall k :: k in s.tui ==> k in AskedKeys(s.log))
    && (forall k :: k in AskedKeys(s.log) ==> k.Client?)
    && (forall k :: k in s.internal && k in WrittenKeys(s.log) ==>
          match s.internal[k] case Steering(id) => Fits(id) case Starting(id, _) => Fits(id) case _ => true)
  }

  /** Where a delivery is kept tells how far it has come. */
  predicate StageAt(s: State, p: Place, id: DeliveryId) {
    var stage := StageOf(s.log, id);
    match p
    case InQueue(t, _) => stage == Ready && id.identity.thread == t
    case InIdle(t, _) => stage == SteerRefused && id.identity.thread == t && Fits(id)
    case InFlight(k) =>
      k in s.internal &&
      (if !Fits(id) then stage == Ready else stage == Written(if s.internal[k].Steering? then Steer else Start))
    case AtTui(_) => false
    case InHand(_) => stage == Ready || (stage in {SteerRefused, Answered, Denied} && Fits(id))
  }

  ghost predicate Staged(s: State, hand: seq<Item>) {
    forall p, id :: At(s, hand, p) == Some(Delivery(id)) ==> id in s.waiting && StageAt(s, p, id)
  }

  ghost predicate Asking(s: State, hand: seq<Item>) {
    forall p, k :: At(s, hand, p) == Some(Turn(k)) ==> k in AskedKeys(s.log)
  }

  /** Nothing that is still owed an answer has been dropped. */
  ghost predicate Present(s: State, hand: seq<Item>) {
    && (forall id :: id in s.waiting ==> Held(s, hand, Delivery(id)))
    && (forall k :: k in OpenTurns(s.log) ==> Held(s, hand, Turn(k)))
  }

  function PendingSet(s: State, t: ThreadId): set<Key> {
    match Thread(s, t).pendingStart case Some(k) => {k} case None => {}
  }

  predicate Backed(s: State, t: ThreadId, k: Key) {
    || (k in s.internal && s.internal[k].Starting? && Fits(s.internal[k].id) && s.internal[k].id.identity.thread == t)
    || (k in s.tui && s.tui[k] == TurnStart(t))
  }

  /** `pendingStart` names exactly the unanswered turn/start of its thread. */
  ghost predicate Starts(s: State) {
    && (forall t :: OpenStarts(s.log, t) == PendingSet(s, t))
    && (forall t :: Thread(s, t).pendingStart.Some? ==> Backed(s, t, Thread(s, t).pendingStart.value))
    && (forall t, k :: Backed(s, t, k) ==> Thread(s, t).pendingStart == Some(k))
  }

  ghost predicate Actives(s: State) {
    forall t :: ActiveOf(s.log, t) == Thread(s, t).active
  }

  ghost predicate Inv(s: State, hand: seq<Item>) {
    && Durable(s)
    && Quiet(s)
    && Keys(s)
    && Unique(s, hand)
    && Staged(s, hand)
    && Asking(s, hand)
    && Present(s, hand)
    && Starts(s)
    && Actives(s)
  }

  /* ---- Small steps ---- */

  lemma Appended(log: seq<Effect>, e: Effect)
    ensures (log + [e])[..|log|] == log
    ensures Replay(log + [e]) == (if e.Persist? then Replay(log)[e.id := e.row] else Replay(log))
    ensures forall id :: StageOf(log + [e], id) == Advance(StageOf(log, id), id, e)
    ensures Legal(log) && LegalNext(log, e) ==> Legal(log + [e])
  {
    assert (log + [e])[..|log|] == log;
  }

  /** Changes of `fuel`, `failed` and `current` do not matter. */
  lemma Bookkeeping(s: State, s': State, hand: seq<Item>)
    requires Inv(s, hand)
    requires s' == s.(fuel := s'.fuel, failed := s'.failed, current := s'.current) && (s.live || s'.current == NO_NAME)
    ensures Inv(s', hand)
  {
    StayPut(s, hand, s');
    assert forall t :: Thread(s', t) == Thread(s, t);
    assert forall t, k :: Backed(s', t, k) == Backed(s, t, k);
    assert forall t :: PendingSet(s', t) == PendingSet(s, t);
    assert forall p, id :: StageAt(s', p, id) == StageAt(s, p, id);
  }

  /** An answer to a producer that is honest at this point. */
  lemma SayReply(s: State, hand: seq<Item>, id: DeliveryId, status: Status)
    requires Inv(s, hand) && HonestReply(StageOf(s.log, id), status)
    ensures Inv(Emit(s, Reply(id, status)), hand)
  {
    var e := Reply(id, status);
    var s' := Emit(s, e);
    Appended(s.log, e);
    forall d ensures !Advance(StageOf(s.log, d), d, e).Illegal? { StageFacts(s.log, d); }
    StayPut(s, hand, s');
    assert forall t :: Thread(s', t) == Thread(s, t);
    assert forall t, k :: Backed(s', t, k) == Backed(s, t, k);
    assert forall t :: PendingSet(s', t) == PendingSet(s, t);
    assert forall p, d :: StageAt(s', p, d) == StageAt(s, p, d);
    assert forall t :: OpenStarts(s'.log, t) == OpenStarts(s.log, t);
    assert forall t :: ActiveOf(s'.log, t) == ActiveOf(s.log, t);
  }

  /** What does not depend on where work is kept. */
  ghost predicate Ground(s: State) {
    Durable(s) && Quiet(s) && Keys(s) && Starts(s) && Actives(s)
  }

  /** Only the queues, the idle lists and the readiness flags have changed. */
  ghost predicate SameGround(s: State, s': State) {
    && s' == s.(threads := s'.threads)
    && (s'.live || s'.threads == map[])
    && (forall t :: Thread(s', t).pendingStart == Thread(s, t).pendingStart && Thread(s', t).active == Thread(s, t).active)
  }

  lemma CarryGround(s: State, s': State)
    requires Ground(s) && SameGround(s, s')
    ensures Ground(s')
  {
    assert forall t, k :: Backed(s', t, k) == Backed(s, t, k);
    assert forall t :: PendingSet(s', t) == PendingSet(s, t);
  }

  lemma TakeQueueInv(s: State, hand: seq<Item>, t: ThreadId)
    requires Inv(s, hand) && s.live
    ensures Inv(TakeQueue(s, t), Thread(s, t).queued + hand)
    ensures forall i :: 0 <= i < |Thread(s, t).queued| && Thread(s, t).queued[i].Completion? ==>
              StageOf(s.log, Thread(s, t).queued[i].id) == Ready
  {
    var s', queue := TakeQueue(s, t), Thread(s, t).queued;
    TakeAll(s, hand, t);
    CarryGround(s, s');
    TakeQueueContents(s, hand, t);
    forall i | 0 <= i < |queue| && queue[i].Completion? ensures StageOf(s.log, queue[i].id) == Ready {
      assert At(s, hand, InQueue(t, i)) == Some(Delivery(queue[i].id));
    }
  }

  lemma TakeQueueContents(s: State, hand: seq<Item>, t: ThreadId)
    requires Staged(s, hand) && Asking(s, hand)
    ensures Staged(TakeQueue(s, t), Thread(s, t).queued + hand)
    ensures Asking(TakeQueue(s, t), Thread(s, t).queued + hand)
  {
    var s', queue := TakeQueue(s, t), Thread(s, t).queued;
    var more := queue + hand;
    forall p | At(s', more, p).Some?
      ensures At(s, hand, match p case InHand(i) => if i < |queue| then InQueue(t, i) else InHand(i - |queue|) case _ => p)
              == At(s', more, p)
    {}
    forall p, id | At(s', more, p) == Some(Delivery(id)) ensures id in s'.waiting && StageAt(s', p, id) {
      assert At(s, hand, match p case InHand(i) => if i < |queue| then InQueue(t, i) else InHand(i - |queue|) case _ => p)
             == Some(Delivery(id));
    }
    forall p, k | At(s', more, p) == Some(Turn(k)) ensures k in AskedKeys(s'.log) {
      assert At(s, hand, match p case InHand(i) => if i < |queue| then InQueue(t, i) else InHand(i - |queue|) case _ => p)
             == Some(Turn(k));
    }
  }

  /* ---- Writing upstream ---- */

  lemma SendLog(log: seq<Effect>, id: DeliveryId, row: Row, action: Action, k: Key)
    requires Legal(log) && row.state == Sent && row.identity == id.identity && row.action == RowActionOf(action)
    requires StageOf(log, id) == Ready || (StageOf(log, id) == SteerRefused && action == Start)
    requires action == Start ==> ActiveOf(log, id.identity.thread) == NO_NAME && OpenStarts(log, id.identity.thread) == {}
    ensures var after := log + [Persist(id, row)] + [Send(id, action, k)];
            && Legal(after)
            && Replay(after) == Replay(log)[id := row]
            && StageOf(after, id) == Written(action)
            && (forall d :: d != id ==> StageOf(after, d) == StageOf(log, d))
            && (forall t :: ActiveOf(after, t) == ActiveOf(log, t))
            && (forall t :: OpenStarts(after, t) ==
                  if action == Start && t == id.identity.thread then OpenStarts(log, t) + {k} else OpenStarts(log, t))
            && AskedKeys(after) == AskedKeys(log)
            && OpenTurns(after) == OpenTurns(log)
            && WrittenKeys(after) == WrittenKeys(log) + {k}
  {
    var mid := log + [Persist(id, row)];
    Appended(log, Persist(id, row));
    forall d ensures !Advance(StageOf(log, d), d, Persist(id, row)).Illegal? { StageFacts(log, d); }
    Appended(mid, Send(id, action, k));
    forall d ensures !Advance(StageOf(mid, d), d, Send(id, action, k)).Illegal? { StageFacts(mid, d); }
  }

  /** The flight a completion is sent under. */
  function FlightOf(id: DeliveryId, action: Action, deferred: bool): Flight {
    if action.Steer? then Steering(id) else Starting(id, deferred)
  }

  /** The state after a completion has been written, before the transport is charged. */
  function Launched(s: State, id: DeliveryId, action: Action, deferred: bool): State
    requires id in s.ledger
  {
    var t := id.identity.thread;
    var k := Managed(s.nextKey);
    var s1 := s.(nextKey := s.nextKey + 1, internal := s.internal[k := FlightOf(id, action, deferred)]);
    if !Fits(id) then s1
    else
      var s2 := if action.Start? then SetThread(s1, t, Thread(s1, t).(steerReady := false, pendingStart := Some(k))) else s1;
      var row := Row(Sent, id.identity, RowActionOf(action), NoReason);
      s2.(ledger := s.ledger[id := row], log := s.log + [Persist(id, row)] + [Send(id, action, k)])
  }

  predicate MaySend(s: State, id: DeliveryId, action: Action) {
    && (StageOf(s.log, id) == Ready || (StageOf(s.log, id) == SteerRefused && action == Start && Fits(id)))
    && (action == Start ==> Thread(s, id.identity.thread).active == NO_NAME && Thread(s, id.identity.thread).pendingStart == None)
  }

  lemma SendShape(s: State, id: DeliveryId, action: Action, deferred: bool)
    requires Durable(s) && !s.failed && MaySend(s, id, action)
    ensures id in s.ledger
    ensures var l := Launched(s, id, action, deferred);
            SendCompletion(s, id, action, deferred) == if Fits(id) then Transport(l) else l.(failed := true)
  {
    StageFacts(s.log, id);
  }

  lemma LaunchedShape(s: State, id: DeliveryId, action: Action, deferred: bool)
    requires id in s.ledger
    ensures var l, t, k := Launched(s, id, action, deferred), id.identity.thread, Managed(s.nextKey);
            && l == s.(nextKey := s.nextKey + 1, internal := s.internal[k := FlightOf(id, action, deferred)],
                       threads := l.threads, ledger := l.ledger, log := l.log)
            && (forall u :: Thread(l, u).queued == Thread(s, u).queued && Thread(l, u).idle == Thread(s, u).idle
                            && Thread(l, u).active == Thread(s, u).active)
            && (forall u :: Thread(l, u).pendingStart ==
                  if Fits(id) && action.Start? && u == t then Some(k) else Thread(s, u).pendingStart)
  {}

  lemma LaunchedLog(s: State, id: DeliveryId, action: Action, deferred: bool)
    requires Ground(s) && MaySend(s, id, action) && id in s.ledger
    ensures var l, t, k := Launched(s, id, action, deferred), id.identity.thread, Managed(s.nextKey);
            && Durable(l)
            && (forall d :: d != id ==> StageOf(l.log, d) == StageOf(s.log, d))
            && StageOf(l.log, id) == (if Fits(id) then Written(action) else StageOf(s.log, id))
            && OpenTurns(l.log) == OpenTurns(s.log) && AskedKeys(l.log) == AskedKeys(s.log)
            && (forall u :: ActiveOf(l.log, u) == ActiveOf(s.log, u))
            && (forall u :: OpenStarts(l.log, u) ==
                  if Fits(id) && action.Start? && u == t then OpenStarts(s.log, u) + {k} else OpenStarts(s.log, u))
            && WrittenKeys(l.log) == (if Fits(id) then WrittenKeys(s.log) + {k} else WrittenKeys(s.log))
  {
    if Fits(id) {
      assert OpenStarts(s.log, id.identity.thread) == PendingSet(s, id.identity.thread);
      assert ActiveOf(s.log, id.identity.thread) == Thread(s, id.identity.thread).active;
      SendLog(s.log, id, Row(Sent, id.identity, RowActionOf(action), NoReason), action, Managed(s.nextKey));
    }
  }

  /** A start under a fresh key becomes the one pending start of its thread. */
  lemma NewPending(s: State, l: State, t: ThreadId, k: Key)
    requires Starts(s) && k !in s.internal && k !in s.tui && PendingSet(s, t) == {}
    requires forall u :: Thread(l, u).pendingStart == if u == t then Some(k) else Thread(s, u).pendingStart
    requires forall u :: OpenStarts(l.log, u) == if u == t then OpenStarts(s.log, u) + {k} else OpenStarts(s.log, u)
    requires forall u, j :: j != k ==> Backed(l, u, j) == Backed(s, u, j)
    requires forall u :: Backed(l, u, k) <==> u == t
    ensures Starts(l)
  {
    forall u | Thread(l, u).pendingStart.Some? ensures Backed(l, u, Thread(l, u).pendingStart.value) {
      if u != t {
        assert Backed(s, u, Thread(s, u).pendingStart.value);
      }
    }
    forall u, j ensures Backed(l, u, j) ==> Thread(l, u).pendingStart == Some(j) {}
    forall u ensures OpenStarts(l.log, u) == PendingSet(l, u) { assert OpenStarts(s.log, u) == PendingSet(s, u); }
  }

  lemma SamePending(s: State, l: State)
    requires Starts(s)
    requires forall u :: Thread(l, u).pendingStart == Thread(s, u).pendingStart
    requires forall u :: OpenStarts(l.log, u) == OpenStarts(s.log, u)
    requires forall u, j :: Backed(l, u, j) == Backed(s, u, j)
    ensures Starts(l)
  {
    forall u ensures OpenStarts(l.log, u) == PendingSet(l, u) { assert OpenStarts(s.log, u) == PendingSet(s, u); }
    forall u | Thread(l, u).pendingStart.Some? ensures Backed(l, u, Thread(l, u).pendingStart.value) {
      assert Backed(s, u, Thread(s, u).pendingStart.value);
    }
  }

  lemma LaunchedStarts(s: State, l: State, id: DeliveryId, action: Action, deferred: bool)
    requires Ground(s) && MaySend(s, id, action) && id in s.ledger && l == Launched(s, id, action, deferred)
    ensures Starts(l) && Actives(l)
  {
    var t, k := id.identity.thread, Managed(s.nextKey);
    LaunchedShape(s, id, action, deferred);
    LaunchedLog(s, id, action, deferred);
    assert k !in s.internal && k !in s.tui;
    forall u, j | j != k ensures Backed(l, u, j) == Backed(s, u, j) {}
    if Fits(id) && action.Start? {
      NewPending(s, l, t, k);
    } else {
      forall u ensures !Backed(l, u, k) {}
      SamePending(s, l);
    }
  }

  lemma LaunchedKeys(s: State, l: State, id: DeliveryId, action: Action, deferred: bool)
    requires Ground(s) && s.live && MaySend(s, id, action) && id in s.ledger && l == Launched(s, id, action, deferred)
    ensures Keys(l) && Quiet(l)
  {
    LaunchedShape(s, id, action, deferred);
    LaunchedLog(s, id, action, deferred);
  }

  /** The head of the hand becomes a flight under a fresh key. */
  lemma Fly(s: State, s': State, item: Item, rest: seq<Item>, k: Key, flight: Flight)
    requires Unique(s, [item] + rest) && k !in s.internal && FlightWork(flight) == WorkOf(item)
    requires s'.internal == s.internal[k := flight] && s'.tui == s.tui
    requires forall t :: Thread(s', t).queued == Thread(s, t).queued && Thread(s', t).idle == Thread(s, t).idle
    ensures Unique(s', rest) && SameHeld(s, [item] + rest, s', rest)
    ensures At(s', rest, InFlight(k)) == Some(WorkOf(item))
    ensures forall p :: p != InFlight(k) ==> At(s', rest, p) == At(s, [item] + rest, Dropped(p))
  {
    var hand := [item] + rest;
    assert hand[1..] == rest;
    forall p | p != InFlight(k) ensures At(s', rest, p) == At(s, hand, Dropped(p)) {
      match p
      case InQueue(t, i) => assert Thread(s', t).queued == Thread(s, t).queued;
      case InIdle(t, i) => assert Thread(s', t).idle == Thread(s, t).idle;
      case _ =>
    }
    PutDown(s, hand, s', InFlight(k));
  }

  /** Work that stays where it was keeps its stage when the log says nothing new about it. */
  lemma KeepStage(s: State, s': State, p: Place, d: DeliveryId)
    requires !p.InHand? && StageAt(s, p, d) && StageOf(s'.log, d) == StageOf(s.log, d)
    requires forall k :: k in s.internal && p == InFlight(k) ==> k in s'.internal && s'.internal[k] == s.internal[k]
    ensures StageAt(s', p, d)
  {}

  lemma LaunchedContents(s: State, l: State, rest: seq<Item>, id: DeliveryId, action: Action, deferred: bool)
    requires id in s.ledger && Inv(s, [Completion(id)] + rest) && s.live && MaySend(s, id, action)
    requires l == Launched(s, id, action, deferred)
    ensures Unique(l, rest) && Staged(l, rest) && Asking(l, rest) && Present(l, rest)
  {
    var hand, k := [Completion(id)] + rest, Managed(s.nextKey);
    LaunchedShape(s, id, action, deferred);
    LaunchedLog(s, id, action, deferred);
    Fly(s, l, Completion(id), rest, k, FlightOf(id, action, deferred));
    assert hand[1..] == rest;
    assert At(s, hand, InHand(0)) == Some(Delivery(id));
    assert StageAt(s, InHand(0), id);
    PutStaged(s, hand, l, InFlight(k));
    PutAsking(s, hand, l, InFlight(k));
  }

  /** The head of the hand is nowhere else. */
  lemma NotHead(s: State, hand: seq<Item>, p: Place, d: DeliveryId)
    requires Unique(s, hand) && hand != [] && At(s, hand, Dropped(p)) == Some(Delivery(d))
    ensures WorkOf(hand[0]) != Delivery(d)
  {
    assert At(s, hand, InHand(0)) == Some(WorkOf(hand[0]));
  }

  /** The head of the hand has moved to `d`; everything else is where it was. */
  ghost predicate PutAt(s: State, hand: seq<Item>, l: State, d: Place) {
    && hand != []
    && At(l, hand[1..], d) == Some(WorkOf(hand[0]))
    && forall p :: p != d ==> At(l, hand[1..], p) == At(s, hand, Dropped(p))
  }

  ghost predicate FlightsKept(s: State, l: State) {
    forall k :: k in s.internal ==> k in l.internal && l.internal[k] == s.internal[k]
  }

  lemma PutStaged(s: State, hand: seq<Item>, l: State, d: Place)
    requires Staged(s, hand) && Unique(s, hand) && PutAt(s, hand, l, d) && FlightsKept(s, l)
    requires l.waiting == s.waiting
    requires hand[0].Completion? ==> StageAt(l, d, hand[0].id)
    requires forall x :: Completion(x) != hand[0] ==> StageOf(l.log, x) == StageOf(s.log, x)
    ensures Staged(l, hand[1..])
  {
    assert At(s, hand, InHand(0)) == Some(WorkOf(hand[0]));
    forall p, x | At(l, hand[1..], p) == Some(Delivery(x)) ensures x in l.waiting && StageAt(l, p, x) {
      if p != d {
        assert At(s, hand, Dropped(p)) == Some(Delivery(x));
        NotHead(s, hand, p, x);
        assert x in s.waiting && StageAt(s, Dropped(p), x);
        if !p.InHand? { KeepStage(s, l, p, x); }
      }
    }
  }

  lemma PutAsking(s: State, hand: seq<Item>, l: State, d: Place)
    requires Asking(s, hand) && PutAt(s, hand, l, d) && AskedKeys(s.log) <= AskedKeys(l.log)
    ensures Asking(l, hand[1..])
  {
    forall p, j | At(l, hand[1..], p) == Some(Turn(j)) ensures j in AskedKeys(l.log) {
      assert At(s, hand, if p == d then InHand(0) else Dropped(p)) == Some(Turn(j));
    }
  }

  /** The head of the hand is done with; everything else is where it was. */
  ghost predicate DoneWith(s: State, hand: seq<Item>, l: State) {
    && hand != []
    && forall p :: At(l, hand[1..], p) == At(s, hand, Dropped(p))
  }

  lemma DoneContents(s: State, hand: seq<Item>, l: State)
    requires Staged(s, hand) && Asking(s, hand) && Unique(s, hand) && DoneWith(s, hand, l) && FlightsKept(s, l)
    requires forall x :: Completion(x) != hand[0] ==> StageOf(l.log, x) == StageOf(s.log, x)
    requires forall x :: x in s.waiting && Completion(x) != hand[0] ==> x in l.waiting
    requires AskedKeys(s.log) <= AskedKeys(l.log)
    ensures Staged(l, hand[1..]) && Asking(l, hand[1..])
  {
    forall p, x | At(l, hand[1..], p) == Some(Delivery(x)) ensures x in l.waiting && StageAt(l, p, x) {
      assert At(s, hand, Dropped(p)) == Some(Delivery(x));
      NotHead(s, hand, p, x);
      assert x in s.waiting && StageAt(s, Dropped(p), x);
      if !p.InHand? { KeepStage(s, l, p, x); }
    }
    forall p, j | At(l, hand[1..], p) == Some(Turn(j)) ensures j in AskedKeys(l.log) {
      assert At(s, hand, Dropped(p)) == Some(Turn(j));
    }
  }

  lemma DonePresent(s: State, hand: seq<Item>, l: State)
    requires Present(s, hand) && Unique(s, hand) && DoneWith(s, hand, l)
    requires l.waiting <= s.waiting && OpenTurns(l.log) <= OpenTurns(s.log)
    requires match hand[0] case Completion(x) => x !in l.waiting case Manual(k, _) => k !in OpenTurns(l.log)
    ensures Present(l, hand[1..]) && Unique(l, hand[1..])
  {
    Finish(s, hand);
    forall p ensures At(l, hand[1..], p) == At(s, hand[1..], p) {}
    forall w | Held(s, hand[1..], w) ensures Held(l, hand[1..], w) {
      var p :| At(s, hand[1..], p) == Some(w);
      assert At(l, hand[1..], p) == Some(w);
    }
    forall x | x in l.waiting ensures Held(l, hand[1..], Delivery(x)) { assert Held(s, hand, Delivery(x)); }
    forall k | k in OpenTurns(l.log) ensures Held(l, hand[1..], Turn(k)) { assert Held(s, hand, Turn(k)); }
  }

  /** The work at `d` has moved to the head of the hand `more`. */
  ghost predicate PickedUp(s: State, hand: seq<Item>, l: State, more: seq<Item>, d: Place) {
    && more != [] && more[1..] == hand
    && At(s, hand, d) == Some(WorkOf(more[0]))
    && At(l, more, d).None?
    && forall p :: p != d && !p.InHand? ==> At(l, more, p) == At(s, hand, p)
  }

  lemma PickedContents(s: State, hand: seq<Item>, l: State, more: seq<Item>, d: Place)
    requires Staged(s, hand) && Asking(s, hand) && Unique(s, hand) && PickedUp(s, hand, l, more, d) && !d.InHand?
    requires forall k :: k in s.internal && d != InFlight(k) ==> k in l.internal && l.internal[k] == s.internal[k]
    requires l.waiting == s.waiting && AskedKeys(s.log) <= AskedKeys(l.log)
    requires forall x :: Completion(x) != more[0] ==> StageOf(l.log, x) == StageOf(s.log, x)
    requires more[0].Completion? ==> StageAt(l, InHand(0), more[0].id)
    ensures Staged(l, more) && Asking(l, more)
  {
    forall p | At(l, more, p).Some? ensures p != d && At(s, hand, Raised(p, d)) == At(l, more, p) {}
    forall p, x | At(l, more, p) == Some(Delivery(x)) ensures x in l.waiting && StageAt(l, p, x) {
      assert p != d && At(s, hand, Raised(p, d)) == Some(Delivery(x));
      assert x in s.waiting && StageAt(s, Raised(p, d), x);
      if p != InHand(0) {
        assert Completion(x) != more[0];
        if !p.InHand? { KeepStage(s, l, p, x); }
      }
    }
    forall p, j | At(l, more, p) == Some(Turn(j)) ensures j in AskedKeys(l.log) {
      assert p != d && At(s, hand, Raised(p, d)) == Some(Turn(j));
    }
  }

  lemma LaunchedInv(s: State, rest: seq<Item>, id: DeliveryId, action: Action, deferred: bool)
    requires id in s.ledger && Inv(s, [Completion(id)] + rest) && s.live && MaySend(s, id, action)
    ensures Inv(Launched(s, id, action, deferred), rest)
  {
    var l := Launched(s, id, action, deferred);
    LaunchedLog(s, id, action, deferred);
    LaunchedStarts(s, l, id, action, deferred);
    LaunchedKeys(s, l, id, action, deferred);
    LaunchedContents(s, l, rest, id, action, deferred);
  }

  lemma SendInv(s: State, rest: seq<Item>, id: DeliveryId, action: Action, deferred: bool)
    requires Inv(s, [Completion(id)] + rest) && s.live && !s.failed && MaySend(s, id, action)
    ensures Inv(SendCompletion(s, id, action, deferred), rest)
    ensures forall d :: d != id ==> StageOf(SendCompletion(s, id, action, deferred).log, d) == StageOf(s.log, d)
  {
    SendShape(s, id, action, deferred);
    var l := Launched(s, id, action, deferred);
    LaunchedLog(s, id, action, deferred);
    LaunchedInv(s, rest, id, action, deferred);
    LaunchedShape(s, id, action, deferred);
    Bookkeeping(l, SendCompletion(s, id, action, deferred), rest);
  }
}
