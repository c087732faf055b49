/** The remaining small steps: taking work out of the collections, putting it back, closing it. */
module GatewaySteps {
  import opened Prelude
  import opened GatewayLog
  import opened GatewayModel
  import opened GatewayPlaces
  import opened GatewayInvariant

  /** Effects that say nothing about a delivery. */
  predicate Plain(e: Effect) {
    e.SendManual? || e.HeardManual? || e.Asked? || e.Told? || e.Active?
  }

  lemma PlainLog(log: seq<Effect>, e: Effect)
    requires Legal(log) && Plain(e) && StartAllowed(log, e)
    ensures var after := log + [e];
            && Legal(after) && Replay(after) == Replay(log)
            && (forall d :: StageOf(after, d) == StageOf(log, d))
            && (forall t :: ActiveOf(after, t) == if e.Active? && e.thread == t then e.turn else ActiveOf(log, t))
            && (forall t :: OpenStarts(after, t) ==
                  if e.SendManual? && e.action == Start && e.thread == t then OpenStarts(log, t) + {e.key}
                  else if e.HeardManual? then OpenStarts(log, t) - {e.key}
                  else OpenStarts(log, t))
            && AskedKeys(after) == (if e.Asked? then AskedKeys(log) + {e.key} else AskedKeys(log))
            && WrittenKeys(after) == (if e.SendManual? then WrittenKeys(log) + {e.key} else WrittenKeys(log))
            && OpenTurns(after) ==
                 (if e.Asked? && e.turnStart then OpenTurns(log) + {e.key}
                  else if e.Told? then OpenTurns(log) - {e.key} else OpenTurns(log))
  {
    Appended(log, e);
    forall d ensures !Advance(StageOf(log, d), d, e).Illegal? { StageFacts(log, d); }
  }

  /* ---- Manual requests ---- */

  lemma SendManualSteerInv(s: State, hand: seq<Item>, key: Key, t: ThreadId)
    requires Inv(s, hand) && s.live && !s.failed && hand != [] && hand[0] == Manual(key, t)
    ensures Inv(SendManualSteer(s, key, t), hand[1..])
    ensures forall d :: StageOf(SendManualSteer(s, key, t).log, d) == StageOf(s.log, d)
  {
    var l := Steered(s, key, t);
    SteeredGround(s, key, t);
    SteeredContents(s, hand, key, t);
    Bookkeeping(l, Transport(l), hand[1..]);
  }

  /** A manual steer written under a fresh key, before the transport is charged. */
  function Steered(s: State, key: Key, t: ThreadId): State {
    var k := Managed(s.nextKey);
    Emit(s.(nextKey := s.nextKey + 1, internal := s.internal[k := ManualSteering(key, t)]), SendManual(k, t, Steer, key))
  }

  lemma SteeredGround(s: State, key: Key, t: ThreadId)
    requires Ground(s) && s.live
    ensures Ground(Steered(s, key, t))
    ensures forall d :: StageOf(Steered(s, key, t).log, d) == StageOf(s.log, d)
    ensures AskedKeys(Steered(s, key, t).log) == AskedKeys(s.log) && OpenTurns(Steered(s, key, t).log) == OpenTurns(s.log)
  {
    var l, k := Steered(s, key, t), Managed(s.nextKey);
    PlainLog(s.log, SendManual(k, t, Steer, key));
    assert forall u :: Thread(l, u) == Thread(s, u);
    assert !(exists u :: Backed(s, u, k));
    forall u, j ensures Backed(l, u, j) == Backed(s, u, j) {}
    SamePending(s, l);
  }

  lemma SteeredContents(s: State, hand: seq<Item>, key: Key, t: ThreadId)
    requires Inv(s, hand) && s.live && hand != [] && hand[0] == Manual(key, t)
    ensures var l := Steered(s, key, t); Unique(l, hand[1..]) && Staged(l, hand[1..]) && Asking(l, hand[1..]) && Present(l, hand[1..])
  {
    var l, k := Steered(s, key, t), Managed(s.nextKey);
    SteeredGround(s, key, t);
    assert hand == [hand[0]] + hand[1..];
    Fly(s, l, hand[0], hand[1..], k, ManualSteering(key, t));
    PutStaged(s, hand, l, InFlight(k));
    PutAsking(s, hand, l, InFlight(k));
  }

  lemma ToldGround(s: State, key: Key)
    requires Ground(s)
    ensures Ground(Emit(s, Told(key)))
  {
    var l := Emit(s, Told(key));
    PlainLog(s.log, Told(key));
    forall u ensures Thread(l, u) == Thread(s, u) {}
    forall u, j ensures Backed(l, u, j) == Backed(s, u, j) {}
    SamePending(s, l);
  }

  /** Answering the TUI while the head of the hand is the request answered. */
  lemma FinishTurnInv(s: State, hand: seq<Item>)
    requires Inv(s, hand) && s.live && !s.failed && hand != [] && hand[0].Manual?
    ensures Inv(TellTui(s, Some(hand[0].key)), hand[1..])
    ensures forall d :: StageOf(TellTui(s, Some(hand[0].key)).log, d) == StageOf(s.log, d)
  {
    var e := Told(hand[0].key);
    var l := Emit(s, e);
    PlainLog(s.log, e);
    ToldGround(s, hand[0].key);
    forall p ensures At(l, hand[1..], p) == At(s, hand, Dropped(p)) {}
    DoneContents(s, hand, l);
    DonePresent(s, hand, l);
    Bookkeeping(l, Transport(l), hand[1..]);
  }

  /** Any other message to the TUI. */
  lemma TellTuiInv(s: State, hand: seq<Item>, key: Option<Key>)
    requires Inv(s, hand) && s.live && !s.failed
    ensures Inv(TellTui(s, key), hand)
  {
    if key.Some? {
      var l := Emit(s, Told(key.value));
      PlainLog(s.log, Told(key.value));
      ToldGround(s, key.value);
      SameContents(s, hand, l);
      Bookkeeping(l, Transport(l), hand);
    } else {
      Bookkeeping(s, Transport(s), hand);
    }
  }

  /** Nothing moved and no delivery advanced. */
  lemma SameContents(s: State, hand: seq<Item>, l: State)
    requires Unique(s, hand) && Staged(s, hand) && Asking(s, hand) && Present(s, hand)
    requires SamePlaces(s, l) && l.waiting == s.waiting
    requires forall d :: StageOf(l.log, d) == StageOf(s.log, d)
    requires AskedKeys(s.log) <= AskedKeys(l.log) && OpenTurns(l.log) <= OpenTurns(s.log)
    ensures Unique(l, hand) && Staged(l, hand) && Asking(l, hand) && Present(l, hand)
  {
    StayPut(s, hand, l);
    forall p, d | At(l, hand, p) == Some(Delivery(d)) ensures d in l.waiting && StageAt(l, p, d) {
      assert At(s, hand, p) == Some(Delivery(d));
      assert StageAt(s, p, d);
    }
    forall p, k | At(l, hand, p) == Some(Turn(k)) ensures k in AskedKeys(l.log) { assert At(s, hand, p) == Some(Turn(k)); }
    forall d | d in l.waiting ensures Held(l, hand, Delivery(d)) { assert Held(s, hand, Delivery(d)); }
    forall k | k in OpenTurns(l.log) ensures Held(l, hand, Turn(k)) { assert Held(s, hand, Turn(k)); }
  }

  /* ---- Closing deliveries ---- */

  lemma CloseLog(log: seq<Effect>, id: DeliveryId, row: Row, status: Status)
    requires Legal(log) && row.identity == id.identity
    requires AfterPersist(StageOf(log, id), row).Closed?
    requires status == if row.state == Accepted then SaysAccepted else SaysRejected
    ensures var after := log + [Persist(id, row)] + [Reply(id, status)];
            && Legal(after) && Replay(after) == Replay(log)[id := row]
            && StageOf(after, id) == Closed(row.state == Accepted)
            && (forall d :: d != id ==> StageOf(after, d) == StageOf(log, d))
            && (forall t :: ActiveOf(after, t) == ActiveOf(log, t))
            && (forall t :: OpenStarts(after, t) == OpenStarts(log, t))
            && AskedKeys(after) == AskedKeys(log) && WrittenKeys(after) == WrittenKeys(log)
            && OpenTurns(after) == OpenTurns(log)
  {
    var mid := log + [Persist(id, row)];
    Appended(log, Persist(id, row));
    forall d ensures !Advance(StageOf(log, d), d, Persist(id, row)).Illegal? { StageFacts(log, d); }
    Appended(mid, Reply(id, status));
    forall d ensures !Advance(StageOf(mid, d), d, Reply(id, status)).Illegal? { StageFacts(mid, d); }
  }

  lemma ClosedInv(s: State, hand: seq<Item>, id: DeliveryId, row: Row, l: State)
    requires Inv(s, hand) && s.live && hand != [] && hand[0] == Completion(id)
    requires row.identity == id.identity && AfterPersist(StageOf(s.log, id), row).Closed?
    requires var status := if row.state == Accepted then SaysAccepted else SaysRejected;
             l == s.(ledger := s.ledger[id := row], waiting := s.waiting - {id},
                     log := s.log + [Persist(id, row)] + [Reply(id, status)])
    ensures Inv(l, hand[1..]) && StageOf(l.log, id) == Closed(row.state == Accepted)
    ensures forall d :: d != id ==> StageOf(l.log, d) == StageOf(s.log, d)
  {
    CloseLog(s.log, id, row, if row.state == Accepted then SaysAccepted else SaysRejected);
    assert forall u :: Thread(l, u) == Thread(s, u);
    forall p ensures At(l, hand[1..], p) == At(s, hand, Dropped(p)) {}
    DoneContents(s, hand, l);
    DonePresent(s, hand, l);
    SamePending(s, l);
  }

  lemma RejectInv(s: State, hand: seq<Item>, id: DeliveryId, reason: Reason)
    requires Inv(s, hand) && s.live && !s.failed && hand != [] && hand[0] == Completion(id)
    requires StageOf(s.log, id) in {Ready, Answered, Denied}
    ensures Inv(Reject(s, id, reason), hand[1..])
    ensures forall d :: d != id ==> StageOf(Reject(s, id, reason).log, d) == StageOf(s.log, d)
    ensures !Reject(s, id, reason).failed && StageOf(Reject(s, id, reason).log, id) == Closed(false)
  {
    StageFacts(s.log, id);
    var row := Row(Rejected, id.identity, s.ledger[id].action, reason);
    var l := s.(ledger := s.ledger[id := row], waiting := s.waiting - {id},
                log := s.log + [Persist(id, row)] + [Reply(id, SaysRejected)]);
    assert Reject(s, id, reason) == l;
    ClosedInv(s, hand, id, row, l);
  }

  lemma AcceptInv(s: State, hand: seq<Item>, id: DeliveryId, action: RowAction)
    requires Inv(s, hand) && s.live && !s.failed && hand != [] && hand[0] == Completion(id)
    requires StageOf(s.log, id) == Answered && action != NoAction
    ensures Inv(Accept(s, id, action), hand[1..])
    ensures forall d :: d != id ==> StageOf(Accept(s, id, action).log, d) == StageOf(s.log, d)
    ensures !Accept(s, id, action).failed
  {
    StageFacts(s.log, id);
    var row := Row(Accepted, id.identity, action, NoReason);
    var l := s.(ledger := s.ledger[id := row], waiting := s.waiting - {id},
                log := s.log + [Persist(id, row)] + [Reply(id, SaysAccepted)]);
    assert Accept(s, id, action) == l;
    ClosedInv(s, hand, id, row, l);
  }

  /* ---- Loops over a hand ---- */

  predicate AllReady(log: seq<Effect>, hand: seq<Item>, n: nat)
    requires n <= |hand|
  {
    forall i :: 0 <= i < n && hand[i].Completion? ==> StageOf(log, hand[i].id) == Ready
  }

  /** Every other delivery in the hand keeps its stage when the head is dealt with. */
  lemma OthersReady(s: State, hand: seq<Item>, n: nat, after: seq<Effect>)
    requires Unique(s, hand) && 0 < n <= |hand| && AllReady(s.log, hand, n)
    requires forall d :: Completion(d) != hand[0] ==> StageOf(after, d) == StageOf(s.log, d)
    ensures AllReady(after, hand[1..], n - 1)
  {
    var rest := hand[1..];
    forall i | 0 <= i < n - 1 && rest[i].Completion? ensures StageOf(after, rest[i].id) == Ready {
      assert hand[i + 1] == rest[i];
      assert StageOf(s.log, hand[i + 1].id) == Ready;
      assert At(s, hand, InHand(i + 1)) == Some(Delivery(rest[i].id));
      assert At(s, hand, InHand(0)) == Some(WorkOf(hand[0]));
    }
  }

  lemma FailItemInv(s: State, hand: seq<Item>, reason: Reason)
    requires Inv(s, hand) && s.live && !s.failed && 0 < |hand| && AllReady(s.log, hand, 1)
    ensures Inv(FailItem(s, hand[0], reason), hand[1..]) && FailItem(s, hand[0], reason).live
    ensures forall d :: Completion(d) != hand[0] ==> StageOf(FailItem(s, hand[0], reason).log, d) == StageOf(s.log, d)
    ensures hand[0].Completion? ==> StageOf(FailItem(s, hand[0], reason).log, hand[0].id) == Closed(false)
  {
    match hand[0]
    case Manual(_, _) => FinishTurnInv(s, hand);
    case Completion(id) => RejectInv(s, hand, id, reason);
  }

  lemma SteerItemInv(s: State, hand: seq<Item>)
    requires Inv(s, hand) && s.live && !s.failed && 0 < |hand| && AllReady(s.log, hand, 1)
    ensures Inv(SteerItem(s, hand[0]), hand[1..]) && SteerItem(s, hand[0]).live
    ensures forall d :: Completion(d) != hand[0] ==> StageOf(SteerItem(s, hand[0]).log, d) == StageOf(s.log, d)
  {
    match hand[0]
    case Manual(key, t) => SendManualSteerInv(s, hand, key, t);
    case Completion(id) =>
      assert hand == [Completion(id)] + hand[1..];
      SendInv(s, hand[1..], id, Steer, false);
  }

  lemma {:induction false} FailedStops(s: State, items: seq<Item>, reason: Reason)
    requires s.failed
    ensures FailItems(s, items, reason) == s && SteerItems(s, items) == s
    decreases |items|
  {
    if items != [] { FailedStops(s, items[1..], reason); }
  }

  lemma FirstOf(s: State, hand: seq<Item>, n: nat, reason: Reason)
    requires 0 < n <= |hand|
    ensures FailItems(s, hand[..n], reason) == FailItems(FailItem(s, hand[0], reason), hand[1..][..n - 1], reason)
    ensures SteerItems(s, hand[..n]) == SteerItems(SteerItem(s, hand[0]), hand[1..][..n - 1])
  {
    assert hand[..n][1..] == hand[1..][..n - 1];
  }

  lemma {:induction false} FailItemsInv(s: State, hand: seq<Item>, n: nat, reason: Reason) returns (rest: seq<Item>)
    requires Inv(s, hand) && s.live && n <= |hand| && AllReady(s.log, hand, n)
    ensures Inv(FailItems(s, hand[..n], reason), rest)
    ensures FailItems(s, hand[..n], reason).live
    ensures !FailItems(s, hand[..n], reason).failed ==> rest == hand[n..]
    decreases n
  {
    if s.failed {
      rest := hand;
      FailedStops(s, hand[..n], reason);
    } else if n == 0 {
      rest := hand;
    } else {
      FailItemInv(s, hand, reason);
      OthersReady(s, hand, n, FailItem(s, hand[0], reason).log);
      FirstOf(s, hand, n, reason);
      rest := FailItemsInv(FailItem(s, hand[0], reason), hand[1..], n - 1, reason);
    }
  }

  lemma {:induction false} SteerItemsInv(s: State, hand: seq<Item>, n: nat) returns (rest: seq<Item>)
    requires Inv(s, hand) && s.live && n <= |hand| && AllReady(s.log, hand, n)
    ensures Inv(SteerItems(s, hand[..n]), rest)
    ensures SteerItems(s, hand[..n]).live
    ensures !SteerItems(s, hand[..n]).failed ==> rest == hand[n..]
    decreases n
  {
    if s.failed {
      rest := hand;
      FailedStops(s, hand[..n], NoReason);
    } else if n == 0 {
      rest := hand;
    } else {
      SteerItemInv(s, hand);
      OthersReady(s, hand, n, SteerItem(s, hand[0]).log);
      FirstOf(s, hand, n, NoReason);
      rest := SteerItemsInv(SteerItem(s, hand[0]), hand[1..], n - 1);
    }
  }
}
