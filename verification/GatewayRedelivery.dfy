/** The one thing at-most-once delivery asks of producers, and why nothing weaker will do.

    `Deliver` does not look whether a prepared delivery is already pending, so asking again while
    it is queued puts a second copy behind the first. */
module GatewayRedelivery {
  import opened Prelude
  import opened GatewayLog
  import opened GatewayModel
  import opened GatewayPlaces
  import opened GatewayInvariant
  import opened GatewaySteps
  import opened GatewayHandlers
  import opened GatewayRuns
  import opened GatewayQueues

  /** A story that ends in a second write, and that write a steer. */
  predicate Doubled(story: seq<Mark>) {
    |story| >= 2 && story[|story| - 1] == Wrote(Steer)
  }

  lemma DoubledIsNotOnce(story: seq<Mark>)
    requires Doubled(story)
    ensures !OnceOnly(story)
  {}

  function Marks(items: seq<Item>, id: DeliveryId): (r: seq<Mark>)
    ensures forall i :: 0 <= i < |r| ==> r[i] == Wrote(Steer)
  {
    if items == [] then []
    else (if items[0] == Completion(id) then [Wrote(Steer)] else []) + Marks(items[1..], id)
  }

  lemma {:induction false} MarksAppend(a: seq<Item>, b: seq<Item>, id: DeliveryId)
    ensures Marks(a + b, id) == Marks(a, id) + Marks(b, id)
  {
    if a == [] {
      assert a + b == b;
    } else {
      assert (a + b)[1..] == a[1..] + b;
      MarksAppend(a[1..], b, id);
    }
  }

  lemma {:induction false} MarksOf(items: seq<Item>, i: nat, id: DeliveryId)
    requires i < |items| && items[i] == Completion(id)
    ensures Marks(items, id) != []
  {
    if i > 0 { MarksOf(items[1..], i - 1, id); }
  }

  predicate CanSend(ledger: map<DeliveryId, Row>, id: DeliveryId) {
    Fits(id) && id in ledger && ledger[id].identity == id.identity && ledger[id].state in {Prepared, Sent}
  }

  /** The ledger lets every completion of the list be sent. */
  predicate Sendable(ledger: map<DeliveryId, Row>, items: seq<Item>) {
    forall i :: 0 <= i < |items| && items[i].Completion? ==> CanSend(ledger, items[i].id)
  }

  lemma StoryNext(log: seq<Effect>, e: Effect, id: DeliveryId)
    ensures Story(log + [e], id) ==
            (if e.Send? && e.id == id then Story(log, id) + [Wrote(e.action)]
             else if e.Heard? && e.id == id then Story(log, id) + [Got(e.ok)] else Story(log, id))
  {
    assert (log + [e])[..|log|] == log;
  }

  function SentRow(d: DeliveryId): Row {
    Row(Sent, d.identity, BySteer, NoReason)
  }

  lemma SendForm(s: State, d: DeliveryId)
    requires !s.failed && s.fuel > 0 && CanSend(s.ledger, d)
    ensures var k := Managed(s.nextKey);
            SendCompletion(s, d, Steer, false) ==
            s.(nextKey := s.nextKey + 1, internal := s.internal[k := Steering(d)], ledger := s.ledger[d := SentRow(d)],
               fuel := s.fuel - 1, log := s.log + [Persist(d, SentRow(d))] + [Send(d, Steer, k)])
  {
    assert Transition(s.ledger, d, Sent, d.identity, BySteer, NoReason) == Ok(s.ledger[d := SentRow(d)]);
  }

  lemma SendWrites(s: State, d: DeliveryId, id: DeliveryId)
    requires !s.failed && s.fuel > 0 && CanSend(s.ledger, d)
    ensures var l := SendCompletion(s, d, Steer, false);
            && !l.failed && l.fuel == s.fuel - 1
            && l.ledger == s.ledger[d := SentRow(d)]
            && Story(l.log, id) == Story(s.log, id) + (if d == id then [Wrote(Steer)] else [])
            && l == s.(nextKey := l.nextKey, internal := l.internal, ledger := l.ledger, fuel := l.fuel, log := l.log)
            && (forall k :: k in s.internal && k != Managed(s.nextKey) ==> k in l.internal && l.internal[k] == s.internal[k])
            && WrittenKeys(l.log) == WrittenKeys(s.log) + {Managed(s.nextKey)}
  {
    var mid := s.log + [Persist(d, SentRow(d))];
    var e := Send(d, Steer, Managed(s.nextKey));
    SendForm(s, d);
    StoryNext(s.log, Persist(d, SentRow(d)), id);
    StoryNext(mid, e, id);
    assert mid[..|s.log|] == s.log && (mid + [e])[..|mid|] == mid;
  }

  /** Steering one item leaves the rest as sendable as it was. */
  lemma SteerOne(s: State, items: seq<Item>, id: DeliveryId)
    requires !s.failed && s.fuel >= |items| > 0 && Sendable(s.ledger, items)
    ensures var s1 := SteerItem(s, items[0]);
            && !s1.failed && s1.fuel == s.fuel - 1 && Sendable(s1.ledger, items[1..])
            && Story(s1.log, id) == Story(s.log, id) + (if items[0] == Completion(id) then [Wrote(Steer)] else [])
  {
    var s1 := SteerItem(s, items[0]);
    match items[0] {
      case Manual(key, t) => StoryNext(s.log, SendManual(Managed(s.nextKey), t, Steer, key), id);
      case Completion(d) => SendWrites(s, d, id);
    }
    forall i | 0 <= i < |items[1..]| && items[1..][i].Completion? ensures CanSend(s1.ledger, items[1..][i].id) {
      assert items[i + 1] == items[1..][i] && CanSend(s.ledger, items[i + 1].id);
    }
  }

  lemma {:induction false} SteerAll(s: State, items: seq<Item>, id: DeliveryId)
    requires !s.failed && s.fuel >= |items| && Sendable(s.ledger, items)
    ensures !SteerItems(s, items).failed
    ensures Story(SteerItems(s, items).log, id) == Story(s.log, id) + Marks(items, id)
    decreases |items|
  {
    if items != [] {
      SteerOne(s, items, id);
      SteerAll(SteerItem(s, items[0]), items[1..], id);
    }
  }

  lemma DrainWrites(s: State, t: ThreadId, id: DeliveryId)
    requires !s.failed && s.fuel >= |Thread(s, t).queued| && Thread(s, t).active != NO_NAME && Sendable(s.ledger, Thread(s, t).queued)
    ensures !Drain(s, t).failed
    ensures Story(Drain(s, t).log, id) == Story(s.log, id) + Marks(Thread(s, t).queued, id)
  {
    SteerAll(TakeQueue(s, t), Thread(s, t).queued, id);
  }

  /* ---- The state after asking twice ---- */

  /** A connected state in which draining thread `t` would write `id` once too often. */
  ghost predicate Loaded(s: State, t: ThreadId, id: DeliveryId) {
    var th := Thread(s, t);
    && s.live && !s.failed && t != NO_NAME && Sendable(s.ledger, th.queued)
    && Marks(th.queued, id) != [] && |Story(s.log, id)| + |Marks(th.queued, id)| >= 2
    && (th.pendingStart.None? ==> th.active != NO_NAME && !th.steerReady)
    && (th.pendingStart.Some? ==> Answering(s, t, th.pendingStart.value))
  }

  /** The pending start can be answered with success. */
  ghost predicate Answering(s: State, t: ThreadId, k: Key) {
    if k in s.internal then
      && s.internal[k].Starting? && k in WrittenKeys(s.log)
      && var d := s.internal[k].id;
         && d.identity.thread == t && d in s.ledger && s.ledger[d].state == Sent && s.ledger[d].identity == d.identity
         && Completion(d) !in Thread(s, t).queued
    else k in s.tui && s.tui[k] == TurnStart(t)
  }

  const TURN: Name := 1

  function Announce(t: ThreadId): Message {
    Message(None, false, false, TurnStarted, t, TURN)
  }

  function Success(t: ThreadId, k: Key): Message {
    Message(Some(k), true, false, OtherMethod, t, TURN)
  }

  /** The announcement of a running turn drains its thread. */
  lemma AnnounceDrains(s: State, t: ThreadId, id: DeliveryId)
    requires Loaded(s, t, id) && Thread(s, t).pendingStart.None?
    ensures Doubled(Story(Perform(s, FromUpstream(Announce(t)), |Thread(s, t).queued| + 1).log, id))
  {
    var s0 := s.(fuel := |Thread(s, t).queued| + 1, failed := false);
    var s1 := SetActive(s0.(current := t), t, TURN);
    StoryNext(s.log, Active(t, TURN), id);
    var s2 := SetThread(s1, t, Thread(s1, t).(steerReady := true));
    DrainWrites(s2, t, id);
    var l := Drain(s2, t);
    assert Started(s0, t, TURN) == l;
    TransportKeepsLog(l, FromUpstream(Announce(t)), id);
  }

  /** Telling the TUI and settling write nothing upstream. */
  lemma TransportKeepsLog(s: State, call: Call, id: DeliveryId)
    requires !s.failed && call.FromUpstream?
    ensures Story(Settle(TellTui(s, None), call).log, id) == Story(s.log, id)
    ensures forall k :: Story(Settle(TellTui(s, Some(k)), call).log, id) == Story(s.log, id)
  {
    forall k ensures Story(Settle(TellTui(s, Some(k)), call).log, id) == Story(s.log, id) {
      StoryNext(s.log, Told(k), id);
      if TellTui(s, Some(k)).failed {
        var e := Boundary(HangupReplies(TellTui(s, Some(k)).(failed := false)));
        StoryNext(s.log + [Told(k)], e, id);
      }
    }
    if TellTui(s, None).failed {
      StoryNext(s.log, Boundary(HangupReplies(TellTui(s, None).(failed := false))), id);
    }
  }

  lemma AcceptWrites(s: State, d: DeliveryId, action: RowAction, id: DeliveryId)
    requires !s.failed && d in s.ledger && s.ledger[d].state == Sent && s.ledger[d].identity == d.identity && action != NoAction
    ensures var l := Accept(s, d, action);
            && l == s.(ledger := s.ledger[d := Row(Accepted, d.identity, action, NoReason)], waiting := s.waiting - {d}, log := l.log)
            && Story(l.log, id) == Story(s.log, id)
  {
    var row := Row(Accepted, d.identity, action, NoReason);
    StoryNext(s.log, Persist(d, row), id);
    StoryNext(s.log + [Persist(d, row)], Reply(d, SaysAccepted), id);
  }

  /** After the answer to a start the thread is drained, or only waits to be announced. */
  lemma AnsweredState(s: State, t: ThreadId, id: DeliveryId)
    requires s.live && !s.failed && t != NO_NAME && Sendable(s.ledger, Thread(s, t).queued)
    requires Marks(Thread(s, t).queued, id) != [] && |Story(s.log, id)| + |Marks(Thread(s, t).queued, id)| >= 2
    requires Thread(s, t).pendingStart.None? && Thread(s, t).active != NO_NAME && s.fuel >= |Thread(s, t).queued|
    ensures var l := if Thread(s, t).steerReady then Drain(s, t) else s;
            !l.failed && (if Thread(s, t).steerReady then Doubled(Story(l.log, id)) else Loaded(l, t, id))
  {
    if Thread(s, t).steerReady { DrainWrites(s, t, id); }
  }

  lemma StartAnswerUnloads(s: State, t: ThreadId, k: Key, id: DeliveryId, fuel: nat)
    requires Loaded(s, t, id) && Thread(s, t).pendingStart == Some(k) && k in s.internal
    requires fuel >= |Thread(s, t).queued|
    ensures var l := Perform(s, FromUpstream(Success(t, k)), fuel);
            Doubled(Story(l.log, id)) || (Loaded(l, t, id) && Thread(l, t).pendingStart.None?)
  {
    var s0 := s.(fuel := fuel, failed := false);
    var d, deferred := s.internal[k].id, s.internal[k].deferred;
    assert Answering(s, t, k);
    assert d != id by {
      if d == id { NotQueued(Thread(s, t).queued, id); }
    }
    var s1 := StartHeard(s0, k, d, true);
    StoryNext(s.log, Heard(d, k, true), id);
    var s2 := SetActive(s1, t, TURN);
    StoryNext(s1.log, Active(t, TURN), id);
    var action := if deferred then ByStartAfterRefusal else ByStart;
    AcceptWrites(s2, d, action, id);
    var s3 := Accept(s2, d, action);
    assert Sendable(s3.ledger, Thread(s, t).queued);
    AnsweredState(s3, t, id);
    SuccessForm(s0, k, d, deferred, t, action);
  }

  lemma SuccessForm(s: State, k: Key, d: DeliveryId, deferred: bool, t: ThreadId, action: RowAction)
    requires k in s.internal && s.internal[k] == Starting(d, deferred) && d.identity.thread == t
    requires action == if deferred then ByStartAfterRefusal else ByStart
    ensures var s3 := Accept(SetActive(StartHeard(s, k, d, true), t, TURN), d, action);
            InternalAnswered(s, k, Success(t, k)) == if Thread(s3, t).steerReady then Drain(s3, t) else s3
  {}

  lemma {:induction false} NotQueued(items: seq<Item>, id: DeliveryId)
    requires Completion(id) !in items
    ensures Marks(items, id) == []
  {
    if items != [] { NotQueued(items[1..], id); }
  }

  lemma TurnAnswerUnloads(s: State, t: ThreadId, k: Key, id: DeliveryId, fuel: nat)
    requires Loaded(s, t, id) && Thread(s, t).pendingStart == Some(k) && k !in s.internal
    requires fuel > |Thread(s, t).queued|
    ensures var l := Perform(s, FromUpstream(Success(t, k)), fuel);
            Doubled(Story(l.log, id)) || (Loaded(l, t, id) && Thread(l, t).pendingStart.None?)
  {
    var s0 := s.(fuel := fuel, failed := false);
    assert Answering(s, t, k);
    var s1 := TurnHeard(s0, k, t);
    StoryNext(s.log, HeardManual(k), id);
    var s2 := SetActive(s1, t, TURN);
    StoryNext(s1.log, Active(t, TURN), id);
    AnsweredState(s2, t, id);
    var s3 := if Thread(s2, t).steerReady then Drain(s2, t) else s2;
    assert TuiAnswered(s0, k, Success(t, k)) == s3;
    var call := FromUpstream(Success(t, k));
    TransportKeepsLog(s3, call, id);
    assert Upstream(s0, Success(t, k)) == TellTui(s3, Some(k));
    if !Thread(s2, t).steerReady {
      var l := TellTui(s3, Some(k));
      StoryNext(s3.log, Told(k), id);
      assert Loaded(l, t, id);
    }
  }

  /** From a loaded state at most two upstream messages write the delivery again. */
  lemma Unload(s: State, t: ThreadId, id: DeliveryId) returns (tail: seq<Event>)
    requires Loaded(s, t, id)
    ensures Lawful(s, tail) && Doubled(Story(Continue(s, tail).log, id))
  {
    var n := |Thread(s, t).queued| + 1;
    if Thread(s, t).pendingStart.None? {
      AnnounceDrains(s, t, id);
      tail := [Run(FromUpstream(Announce(t)), n)];
      Once(s, tail[0]);
    } else {
      var k := Thread(s, t).pendingStart.value;
      var first := Run(FromUpstream(Success(t, k)), n);
      if k in s.internal { StartAnswerUnloads(s, t, k, id, n); } else { TurnAnswerUnloads(s, t, k, id, n); }
      var s1 := Step(s, first);
      if Doubled(Story(s1.log, id)) {
        tail := [first];
        Once(s, first);
      } else {
        AnnounceDrains(s1, t, id);
        var second := Run(FromUpstream(Announce(t)), |Thread(s1, t).queued| + 1);
        Once(s1, second);
        tail := [first, second];
        assert tail[1..] == [second];
      }
    }
  }

  lemma Once(s: State, e: Event)
    requires Admissible(s, e.call)
    ensures Lawful(s, [e]) && Continue(s, [e]) == Step(s, e)
  {
    assert [e][1..] == [];
  }

  predicate QueueFits(s: State, t: ThreadId) {
    forall i :: 0 <= i < |Thread(s, t).queued| && Thread(s, t).queued[i].Completion? ==> Fits(Thread(s, t).queued[i].id)
  }

  /** A pending prepared delivery that fits is in the queue of its thread. */
  lemma PreparedIsQueued(s: State, id: DeliveryId) returns (i: nat)
    requires Inv(s, []) && !NoRedeliver(s, id) && Fits(id)
    ensures i < |Thread(s, id.identity.thread).queued| && Thread(s, id.identity.thread).queued[i] == Completion(id)
    ensures StageOf(s.log, id) == Ready && Story(s.log, id) == []
  {
    WaitingStage(s, id);
    StageFacts(s.log, id);
    var p :| At(s, [], p) == Some(Delivery(id));
    assert StageAt(s, p, id);
    i := p.index;
  }

  lemma QueueSendable(s: State, t: ThreadId)
    requires Inv(s, []) && QueueFits(s, t)
    ensures Sendable(s.ledger, Thread(s, t).queued)
  {
    var queue := Thread(s, t).queued;
    forall i | 0 <= i < |queue| && queue[i].Completion?
      ensures queue[i].id in s.ledger && s.ledger[queue[i].id].identity == queue[i].id.identity
              && s.ledger[queue[i].id].state == Prepared
    {
      assert At(s, [], InQueue(t, i)) == Some(Delivery(queue[i].id));
      assert StageAt(s, InQueue(t, i), queue[i].id);
      StageFacts(s.log, queue[i].id);
    }
  }

  /** The pending start of a thread is a request upstream can answer. */
  lemma PendingAnswerable(s: State, t: ThreadId)
    requires Inv(s, []) && Thread(s, t).pendingStart.Some?
    ensures Answering(s, t, Thread(s, t).pendingStart.value)
  {
    var k := Thread(s, t).pendingStart.value;
    assert Backed(s, t, k);
    assert OpenStarts(s.log, t) == PendingSet(s, t);
    OpenIsWritten(s.log, t);
    if k in s.internal {
      var d := s.internal[k].id;
      assert At(s, [], InFlight(k)) == Some(Delivery(d));
      assert StageAt(s, InFlight(k), d);
      StageFacts(s.log, d);
      forall i | 0 <= i < |Thread(s, t).queued| ensures Thread(s, t).queued[i] != Completion(d) {
        assert At(s, [], InQueue(t, i)) == Some(WorkOf(Thread(s, t).queued[i]));
      }
    }
  }

  lemma {:induction false} OpenIsWritten(log: seq<Effect>, t: ThreadId)
    ensures OpenStarts(log, t) <= WrittenKeys(log)
  {
    if log != [] { OpenIsWritten(log[..|log| - 1], t); }
  }

  /** Asking again for a queued delivery leads to a loaded state. */
  lemma RedeliverLoads(s: State, id: DeliveryId)
    requires Inv(s, []) && NoStrand(s.threads) && s.live && s.current == id.identity.thread && s.current != NO_NAME
    requires !NoRedeliver(s, id) && Fits(id) && QueueFits(s, s.current)
    ensures Loaded(Perform(s, DoDeliver(id), 1), id.identity.thread, id)
  {
    var t := id.identity.thread;
    var s0 := s.(fuel := 1, failed := false);
    var th := Thread(s, t);
    var i := PreparedIsQueued(s, id);
    MarksOf(th.queued, i, id);
    QueueSendable(s, t);
    assert Strandless(th);
    if th.pendingStart.Some? { PendingAnswerable(s, t); }
    var s1 := Admitted(s0, id);
    var s2 := SetThread(s1, t, Thread(s1, t));
    assert Thread(s2, t) == th;
    assert s.ledger[id].identity == id.identity by { assert th.queued[i] == Completion(id); }
    if th.active != NO_NAME && th.steerReady {
      NotManagedNext(s, t);
      assert Perform(s, DoDeliver(id), 1) == SendCompletion(s2, id, Steer, false) by { SendWrites(s2, id, id); }
      SteeredIsLoaded(s2, SendCompletion(s2, id, Steer, false), t, id);
    } else {
      QueuedIsLoaded(s2, t, id);
      assert Perform(s, DoDeliver(id), 1) == SetThread(s2, t, th.(queued := th.queued + [Completion(id)]));
    }
  }

  lemma QueuedIsLoaded(s: State, t: ThreadId, id: DeliveryId)
    requires s.live && !s.failed && t != NO_NAME && CanSend(s.ledger, id)
    requires var th := Thread(s, t);
             && Sendable(s.ledger, th.queued) && Marks(th.queued, id) != []
             && (th.pendingStart.None? ==> th.active != NO_NAME && !th.steerReady)
             && (th.pendingStart.Some? ==> Answering(s, t, th.pendingStart.value))
             && (th.pendingStart.Some? && th.pendingStart.value in s.internal ==> s.internal[th.pendingStart.value].id != id)
    ensures Loaded(SetThread(s, t, Thread(s, t).(queued := Thread(s, t).queued + [Completion(id)])), t, id)
  {
    var th := Thread(s, t);
    MarksAppend(th.queued, [Completion(id)], id);
    assert [Completion(id)][1..] == [] && Marks([Completion(id)], id) == [Wrote(Steer)];
  }

  /** The pending start is not filed under the next fresh key. */
  lemma NotManagedNext(s: State, t: ThreadId)
    requires Inv(s, [])
    ensures Thread(s, t).pendingStart != Some(Managed(s.nextKey))
  {
    var pending := Thread(s, t).pendingStart;
    assert pending.Some? ==> Backed(s, t, pending.value) && (pending.value in s.internal || pending.value in s.tui);
  }

  lemma SteeredIsLoaded(s: State, l: State, t: ThreadId, id: DeliveryId)
    requires s.live && !s.failed && s.fuel > 0 && t != NO_NAME && l == SendCompletion(s, id, Steer, false)
    requires Sendable(s.ledger, Thread(s, t).queued) && CanSend(s.ledger, id)
    requires Marks(Thread(s, t).queued, id) != []
    requires Thread(s, t).pendingStart.Some? && Thread(s, t).pendingStart.value != Managed(s.nextKey)
    requires Answering(s, t, Thread(s, t).pendingStart.value)
    ensures Loaded(l, t, id)
  {
    SendWrites(s, id, id);
    assert Thread(l, t) == Thread(s, t);
  }

  /** Every continuation of a run that asks for `id` now writes it at most once. */
  ghost predicate SafeToAsk(s: State, id: DeliveryId) {
    forall fuel: nat, tail :: Lawful(Step(s, Run(DoDeliver(id), fuel)), tail) ==>
      OnceOnly(Story(Continue(Step(s, Run(DoDeliver(id), fuel)), tail).log, id))
  }

  /** Another thread is current: the call is turned down before it touches the tables. */
  predicate TurnedDown(s: State, id: DeliveryId) {
    s.current != id.identity.thread
  }

  lemma TurnedDownInv(s: State, id: DeliveryId, fuel: nat)
    requires Inv(s, []) && s.live && !NoRedeliver(s, id) && TurnedDown(s, id)
    ensures Inv(Step(s, Run(DoDeliver(id), fuel)), [])
  {
    var s0 := s.(fuel := fuel, failed := false);
    Bookkeeping(s, s0, []);
    SayReply(s0, [], id, SaysRejected);
  }

  lemma AskingIsSafe(s: State, id: DeliveryId)
    requires Inv(s, []) && (NoRedeliver(s, id) || (s.live && TurnedDown(s, id)))
    ensures SafeToAsk(s, id)
  {
    forall fuel: nat, tail | Lawful(Step(s, Run(DoDeliver(id), fuel)), tail)
      ensures OnceOnly(Story(Continue(Step(s, Run(DoDeliver(id), fuel)), tail).log, id))
    {
      var s1 := Step(s, Run(DoDeliver(id), fuel));
      if NoRedeliver(s, id) { StepInv(s, Run(DoDeliver(id), fuel)); } else { TurnedDownInv(s, id, fuel); }
      RunInv(s1, tail);
      AtMostOnce(Continue(s1, tail).log, id);
    }
  }

  lemma AskingIsUnsafe(s: State, id: DeliveryId)
    requires Inv(s, []) && NoStrand(s.threads) && s.live && s.current == id.identity.thread && s.current != NO_NAME
    requires !NoRedeliver(s, id) && Fits(id) && QueueFits(s, s.current)
    ensures !SafeToAsk(s, id)
  {
    RedeliverLoads(s, id);
    var s1 := Step(s, Run(DoDeliver(id), 1));
    var tail := Unload(s1, id.identity.thread, id);
    DoubledIsNotOnce(Story(Continue(s1, tail).log, id));
  }

  /** Exactly: in any state of an orderly run, with the queue of its thread within the context limit,
      a delivery may be asked for without ever risking a double write if and only if it is not
      pending in state `prepared`, or another thread is current. */
  lemma RedeliveryExactly(events: seq<Event>, id: DeliveryId)
    requires Lawful(START, events) && Punctual(START, events) && Fits(id) && id.identity.thread != NO_NAME
    requires QueueFits(Continue(START, events), id.identity.thread)
    ensures var s := Continue(START, events);
            SafeToAsk(s, id) <==> NoRedeliver(s, id) || TurnedDown(s, id)
  {
    var s := Continue(START, events);
    Reachable(events);
    FreshInv(START);
    RunStrand(START, events);
    if id in s.waiting { assert s.live; }
    if NoRedeliver(s, id) || TurnedDown(s, id) { AskingIsSafe(s, id); } else { AskingIsUnsafe(s, id); }
  }
}
