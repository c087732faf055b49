/** What the gateway promises, over every run. */
module GatewayTheorems {
  import opened Prelude
  import opened GatewayLog
  import opened GatewayModel
  import opened GatewayPlaces
  import opened GatewayInvariant
  import opened GatewaySteps
  import opened GatewayHandlers
  import opened GatewayRuns

  /* ---- At most once, and honest answers ---- */

  /** However connections drop and the process restarts, a delivery is written upstream at most
      once, or once as a steer that was explicitly refused and then once as a start. */
  lemma DeliveredAtMostOnce(events: seq<Event>, id: DeliveryId)
    requires Lawful(START, events)
    ensures OnceOnly(Story(Continue(START, events).log, id))
  {
    Reachable(events);
    AtMostOnce(Continue(START, events).log, id);
  }

  /** A row found `sent` when an epoch ends stays as it is and is never written again. */
  lemma SentIsNeverResent(events: seq<Event>, b: nat, id: DeliveryId)
    requires Lawful(START, events)
    requires var log := Continue(START, events).log;
             b < |log| && log[b].Boundary? && id in Replay(log[..b]) && Replay(log[..b])[id].state == Sent
    ensures var s := Continue(START, events);
            Story(s.log, id) == Story(s.log[..b], id) && id in s.ledger && s.ledger[id].state == Sent
  {
    Reachable(events);
    NeverResent(Continue(START, events).log, b, id);
  }

  /** What any caller was ever told about a delivery. */
  predicate ToldStatus(e: Effect, id: DeliveryId, status: Status) {
    e == Reply(id, status) || (e.Boundary? && id in e.replies && e.replies[id] == status)
  }

  lemma StatusIsHonest(events: seq<Event>, i: nat, id: DeliveryId)
    requires Lawful(START, events) && i < |Continue(START, events).log|
    ensures var log := Continue(START, events).log;
            && (ToldStatus(log[i], id, SaysRetryable) ==> Story(log[..i], id) == [])
            && (ToldStatus(log[i], id, SaysAccepted) ==>
                  var story := Story(log[..i], id);
                  |story| >= 2 && story[|story| - 1] == Got(true) && story[|story| - 2].Wrote?)
  {
    Reachable(events);
    var log := Continue(START, events).log;
    if ToldStatus(log[i], id, SaysRetryable) { RetryableMeansUnsent(log, i, id); }
    if ToldStatus(log[i], id, SaysAccepted) { AcceptedMeansAnswered(log, i, id); }
  }

  /** Rows are kept for ever, accepted and rejected ones unchanged, and none changes identity. */
  lemma LedgerIsMonotone(events: seq<Event>, i: nat, id: DeliveryId)
    requires Lawful(START, events) && i <= |Continue(START, events).log|
    requires id in Replay(Continue(START, events).log[..i])
    ensures var s := Continue(START, events);
            var row := Replay(s.log[..i])[id];
            && id in s.ledger && s.ledger[id].identity == row.identity == id.identity
            && (row.state in {Accepted, Rejected} ==> s.ledger[id] == row)
  {
    Reachable(events);
    RowsAbsorbing(Continue(START, events).log, i, id);
  }

  /* ---- Single ownership of work ---- */

  ghost predicate InOnePlace(s: State, w: Work) {
    exists p :: At(s, [], p) == Some(w) && forall q :: At(s, [], q) == Some(w) ==> q == p
  }

  /** Every unresolved completion and every unanswered manual turn/start is in exactly one of the
      queues, the idle lists, the flights and the TUI requests. */
  lemma WorkHasOneOwner(events: seq<Event>, w: Work)
    requires Lawful(START, events)
    requires var s := Continue(START, events);
             match w case Delivery(id) => id in s.waiting case Turn(k) => k in OpenTurns(s.log)
    ensures InOnePlace(Continue(START, events), w)
  {
    Reachable(events);
    var s := Continue(START, events);
    assert Held(s, [], w);
    var p :| At(s, [], p) == Some(w);
    forall q | At(s, [], q) == Some(w) ensures q == p {}
  }

  /** A thread has at most one unanswered turn/start, and `pendingStart` names it. */
  lemma PendingStartIsTheOnlyOne(events: seq<Event>, t: ThreadId)
    requires Lawful(START, events)
    ensures var s := Continue(START, events);
            OpenStarts(s.log, t) == match Thread(s, t).pendingStart case Some(k) => {k} case None => {}
  {
    Reachable(events);
    var s := Continue(START, events);
    assert OpenStarts(s.log, t) == PendingSet(s, t);
  }

  /** Each turn/start was written while the thread had no active turn and no unanswered start. */
  lemma StartsAreSerialized(events: seq<Event>, i: nat)
    requires Lawful(START, events) && i < |Continue(START, events).log|
    ensures var log := Continue(START, events).log;
            match log[i]
            case Send(id, Start, _) =>
              ActiveOf(log[..i], id.identity.thread) == NO_NAME && OpenStarts(log[..i], id.identity.thread) == {}
            case SendManual(_, t, Start, _) => ActiveOf(log[..i], t) == NO_NAME && OpenStarts(log[..i], t) == {}
            case _ => true
  {
    Reachable(events);
    StartsWhenIdle(Continue(START, events).log, i);
  }
}
