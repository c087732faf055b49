/** Where the gateway keeps each unit of work: a completion delivery or a manual turn/start.

    `hand` is the work the running handler holds between taking it out of one collection and
    putting it into another; it is empty between handlers. */
module GatewayPlaces {
  import opened Prelude
  import opened GatewayLog
  import opened GatewayModel

  datatype Work = Delivery(id: DeliveryId) | Turn(key: Key)

  datatype Place =
    | InQueue(thread: ThreadId, index: nat)
    | InIdle(thread: ThreadId, index: nat)
    | InFlight(key: Key)
    | AtTui(key: Key)
    | InHand(index: nat)

  function WorkOf(item: Item): Work {
    match item
    case Completion(id) => Delivery(id)
    case Manual(key, _) => Turn(key)
  }

  function FlightWork(flight: Flight): Work {
    match flight
    case Steering(id) => Delivery(id)
    case Starting(id, _) => Delivery(id)
    case ManualSteering(key, _) => Turn(key)
  }

  function At(s: State, hand: seq<Item>, p: Place): Option<Work> {
    match p
    case InQueue(t, i) =>
      if t in s.threads && i < |s.threads[t].queued| then Some(WorkOf(s.threads[t].queued[i])) else None
    case InIdle(t, i) =>
      if t in s.threads && i < |s.threads[t].idle| then Some(Delivery(s.threads[t].idle[i])) else None
    case InFlight(k) => if k in s.internal then Some(FlightWork(s.internal[k])) else None
    case AtTui(k) => if k in s.tui && s.tui[k].TurnStart? then Some(Turn(k)) else None
    case InHand(i) => if i < |hand| then Some(WorkOf(hand[i])) else None
  }

  ghost predicate Held(s: State, hand: seq<Item>, w: Work) {
    exists p :: At(s, hand, p) == Some(w)
  }

  /** No unit of work is in two places. */
  ghost predicate Unique(s: State, hand: seq<Item>) {
    forall p, q :: At(s, hand, p).Some? && At(s, hand, p) == At(s, hand, q) ==> p == q
  }

  ghost predicate SameHeld(s: State, hand: seq<Item>, s': State, hand': seq<Item>) {
    forall w :: Held(s, hand, w) <==> Held(s', hand', w)
  }

  /** Nothing the places depend on has changed. */
  ghost predicate SamePlaces(s: State, s': State) {
    && s'.internal == s.internal && s'.tui == s.tui
    && (forall t :: Thread(s', t).queued == Thread(s, t).queued && Thread(s', t).idle == Thread(s, t).idle)
  }

  lemma StayPut(s: State, hand: seq<Item>, s': State)
    requires SamePlaces(s, s')
    ensures forall p :: At(s', hand, p) == At(s, hand, p)
    ensures Unique(s, hand) ==> Unique(s', hand)
    ensures SameHeld(s, hand, s', hand)
  {
    forall p ensures At(s', hand, p) == At(s, hand, p) {
      match p
      case InQueue(t, i) => assert Thread(s', t).queued == Thread(s, t).queued;
      case InIdle(t, i) => assert Thread(s', t).idle == Thread(s, t).idle;
      case _ =>
    }
  }

  function Dropped(p: Place): Place {
    match p
    case InHand(i) => InHand(i + 1)
    case _ => p
  }

  /** Work moves along `to` and back along `from`. */
  lemma Relocate(s: State, hand: seq<Item>, s': State, hand': seq<Item>, to: Place -> Place, from: Place -> Place)
    requires Unique(s, hand)
    requires forall p :: At(s, hand, p).Some? ==> At(s', hand', to(p)) == At(s, hand, p)
    requires forall p :: At(s', hand', p).Some? ==> At(s, hand, from(p)) == At(s', hand', p) && to(from(p)) == p
    ensures Unique(s', hand') && SameHeld(s, hand, s', hand')
  {
    forall p, q | At(s', hand', p).Some? && At(s', hand', p) == At(s', hand', q) ensures p == q {
      assert At(s, hand, from(p)) == At(s, hand, from(q));
    }
    forall w ensures Held(s, hand, w) <==> Held(s', hand', w) {
      if Held(s, hand, w) {
        var p :| At(s, hand, p) == Some(w);
        assert At(s', hand', to(p)) == Some(w);
      }
      if Held(s', hand', w) {
        var p :| At(s', hand', p) == Some(w);
        assert At(s, hand, from(p)) == Some(w);
      }
    }
  }

  /** The place, in a hand that has one more item in front, of what was at `p`; at `d` if it is that item. */
  function Raised(p: Place, d: Place): Place {
    match p
    case InHand(i) => if i == 0 then d else InHand(i - 1)
    case _ => p
  }

  function Lowered(p: Place, d: Place): Place {
    if p == d then InHand(0) else Dropped(p)
  }

  /** The head of the hand goes to the free place `d`. */
  lemma PutDown(s: State, hand: seq<Item>, s': State, d: Place)
    requires Unique(s, hand) && hand != [] && !d.InHand?
    requires At(s, hand, d).None? && At(s', hand[1..], d) == At(s, hand, InHand(0))
    requires forall p :: p != d && !p.InHand? ==> At(s', hand[1..], p) == At(s, hand, p)
    ensures Unique(s', hand[1..]) && SameHeld(s, hand, s', hand[1..])
  {
    var rest := hand[1..];
    forall p ensures At(s, hand, p).Some? ==> At(s', rest, Raised(p, d)) == At(s, hand, p) {
      if p.InHand? && 0 < p.index < |hand| { assert rest[p.index - 1] == hand[p.index]; }
    }
    forall p ensures At(s', rest, p).Some? ==> At(s, hand, Lowered(p, d)) == At(s', rest, p) && Raised(Lowered(p, d), d) == p {
      if p.InHand? && p.index < |rest| { assert rest[p.index] == hand[p.index + 1]; }
    }
    Relocate(s, hand, s', rest, (p: Place) => Raised(p, d), (p: Place) => Lowered(p, d));
  }

  /** The work at `d` comes to the head of the hand. */
  lemma PickUp(s: State, hand: seq<Item>, s': State, more: seq<Item>, d: Place)
    requires Unique(s, hand) && !d.InHand? && more != [] && more[1..] == hand
    requires At(s, hand, d) == Some(WorkOf(more[0])) && At(s', more, d).None?
    requires forall p :: p != d && !p.InHand? ==> At(s', more, p) == At(s, hand, p)
    ensures Unique(s', more) && SameHeld(s, hand, s', more)
  {
    forall p ensures At(s, hand, p).Some? ==> At(s', more, Lowered(p, d)) == At(s, hand, p) {
      if p.InHand? && p.index < |hand| { assert hand[p.index] == more[p.index + 1]; }
    }
    forall p ensures At(s', more, p).Some? ==> At(s, hand, Raised(p, d)) == At(s', more, p) && Lowered(Raised(p, d), d) == p {
      if p.InHand? && 0 < p.index < |more| { assert hand[p.index - 1] == more[p.index]; }
    }
    Relocate(s, hand, s', more, (p: Place) => Lowered(p, d), (p: Place) => Raised(p, d));
  }

  /** With one more item in front, everything in the hand is one place further. */
  lemma OneMore(s: State, hand: seq<Item>, more: seq<Item>, p: Place)
    requires more != [] && more[1..] == hand
    ensures At(s, more, Dropped(p)) == At(s, hand, p)
    ensures p != InHand(0) ==> At(s, hand, Raised(p, p)) == At(s, more, p) && Dropped(Raised(p, p)) == p
  {
    if p.InHand? {
      if p.index < |hand| { assert hand[p.index] == more[p.index + 1]; }
      if 0 < p.index < |more| { assert hand[p.index - 1] == more[p.index]; }
    }
  }

  /** New work enters the hand. */
  lemma Welcome(s: State, hand: seq<Item>, more: seq<Item>)
    requires more != [] && more[1..] == hand
    requires Unique(s, hand) && !Held(s, hand, WorkOf(more[0]))
    ensures Unique(s, more)
    ensures forall w :: Held(s, more, w) <==> Held(s, hand, w) || w == WorkOf(more[0])
  {
    assert At(s, more, InHand(0)) == Some(WorkOf(more[0]));
    forall p, q | At(s, more, p).Some? && At(s, more, p) == At(s, more, q) ensures p == q {
      OneMore(s, hand, more, p);
      OneMore(s, hand, more, q);
    }
    forall w ensures Held(s, more, w) <==> Held(s, hand, w) || w == WorkOf(more[0]) {
      if Held(s, more, w) {
        var p :| At(s, more, p) == Some(w);
        OneMore(s, hand, more, p);
      }
      if Held(s, hand, w) {
        var p :| At(s, hand, p) == Some(w);
        OneMore(s, hand, more, p);
      }
    }
  }

  /** The head of the hand is finished. */
  lemma Finish(s: State, hand: seq<Item>)
    requires Unique(s, hand) && hand != []
    ensures Unique(s, hand[1..]) && !Held(s, hand[1..], WorkOf(hand[0]))
    ensures forall w :: w != WorkOf(hand[0]) ==> (Held(s, hand, w) <==> Held(s, hand[1..], w))
  {
    var rest := hand[1..];
    assert At(s, hand, InHand(0)) == Some(WorkOf(hand[0]));
    forall p, q | At(s, rest, p).Some? && At(s, rest, p) == At(s, rest, q) ensures p == q {
      OneMore(s, rest, hand, p);
      OneMore(s, rest, hand, q);
    }
    forall p | At(s, rest, p) == Some(WorkOf(hand[0])) ensures false { OneMore(s, rest, hand, p); }
    forall w | w != WorkOf(hand[0]) ensures Held(s, hand, w) <==> Held(s, rest, w) {
      if Held(s, hand, w) {
        var p :| At(s, hand, p) == Some(w);
        OneMore(s, rest, hand, p);
      }
      if Held(s, rest, w) {
        var p :| At(s, rest, p) == Some(w);
        OneMore(s, rest, hand, p);
      }
    }
  }

  function Unqueued(p: Place, t: ThreadId, n: nat): Place {
    match p
    case InQueue(u, i) => if u == t then InHand(i) else p
    case InHand(i) => InHand(i + n)
    case _ => p
  }

  function Queued(p: Place, t: ThreadId, n: nat): Place {
    match p
    case InHand(i) => if i < n then InQueue(t, i) else InHand(i - n)
    case _ => p
  }

  /** A thread's whole queue comes to the front of the hand. */
  lemma TakeAll(s: State, hand: seq<Item>, t: ThreadId)
    requires Unique(s, hand)
    ensures var s', hand' := TakeQueue(s, t), Thread(s, t).queued + hand;
            Unique(s', hand') && SameHeld(s, hand, s', hand')
  {
    var s', queue := TakeQueue(s, t), Thread(s, t).queued;
    var more, n := queue + hand, |queue|;
    forall p ensures At(s, hand, p).Some? ==> At(s', more, Unqueued(p, t, n)) == At(s, hand, p) {}
    forall p ensures At(s', more, p).Some? ==> At(s, hand, Queued(p, t, n)) == At(s', more, p) && Unqueued(Queued(p, t, n), t, n) == p {}
    Relocate(s, hand, s', more, (p: Place) => Unqueued(p, t, n), (p: Place) => Queued(p, t, n));
  }

  function Unidled(p: Place, t: ThreadId): Place {
    match p
    case InIdle(u, i) => if u != t then p else if i == 0 then InHand(0) else InIdle(u, i - 1)
    case InHand(i) => InHand(i + 1)
    case _ => p
  }

  function Idled(p: Place, t: ThreadId): Place {
    match p
    case InHand(i) => if i == 0 then InIdle(t, 0) else InHand(i - 1)
    case InIdle(u, i) => if u == t then InIdle(u, i + 1) else p
    case _ => p
  }

  /** The first idle completion of a thread comes to the head of the hand. */
  lemma TakeIdle(s: State, hand: seq<Item>, t: ThreadId, more: seq<Item>)
    requires Unique(s, hand) && Thread(s, t).idle != []
    requires more != [] && more[0] == Completion(Thread(s, t).idle[0]) && more[1..] == hand
    ensures var th := Thread(s, t);
            var s' := SetThread(s, t, th.(idle := th.idle[1..]));
            Unique(s', more) && SameHeld(s, hand, s', more)
  {
    var th := Thread(s, t);
    var s' := SetThread(s, t, th.(idle := th.idle[1..]));
    forall p ensures At(s, hand, p).Some? ==> At(s', more, Unidled(p, t)) == At(s, hand, p) {
      if p.InHand? { OneMore(s, hand, more, p); }
    }
    forall p ensures At(s', more, p).Some? ==> At(s, hand, Idled(p, t)) == At(s', more, p) && Unidled(Idled(p, t), t) == p {
      if p.InHand? { OneMore(s, hand, more, p); }
    }
    Relocate(s, hand, s', more, (p: Place) => Unidled(p, t), (p: Place) => Idled(p, t));
  }
}
