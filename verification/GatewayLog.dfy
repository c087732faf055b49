/** What the managed gateway does to the outside world, as one append-only log.

    Every ledger commit, every request written upstream, every answer read back, every answer
    given to a completion producer or to the TUI, and every end of an epoch is one effect.
    The log survives disconnects and process restarts; nothing in the gateway reads it. */
module GatewayLog {
  import opened Prelude

  /** An identifier the gateway only compares; `NO_NAME` is the empty one. */
  type Name = nat

  const NO_NAME: Name := 0

  type ThreadId = Name

  /** JSON-RPC ids: `Managed(n)` is the n-th id with the gateway's own prefix. */
  datatype Key = Managed(n: nat) | Client(id: Name)

  /** A normalized receipt; `contextBytes` is the size of the context rendered from it. */
  datatype Receipt = Receipt(body: Name, contextBytes: nat)

  datatype Identity = Identity(thread: ThreadId, parentAttempt: Name, sealedBatch: Name, receipt: Receipt)

  /** The digest of an identity, kept injective by carrying the identity itself. */
  datatype DeliveryId = Dlv(identity: Identity)

  datatype Action = Steer | Start
  datatype RowState = Prepared | Sent | Accepted | Rejected
  datatype RowAction = NoAction | BySteer | ByStart | ByStartAfterRefusal
  datatype Reason =
    | NoReason | TurnStartRejected | TurnStartInvalid | SteerIdMismatch | ActiveTurnMissing
    | CompletionStartRejected | CompletionStartInvalid | ManualStartRejected | ManualStartInvalid

  datatype Row = Row(state: RowState, identity: Identity, action: RowAction, reason: Reason)

  datatype Status = SaysAccepted | SaysRejected | SaysRetryable | SaysAmbiguous

  datatype Effect =
    | Persist(id: DeliveryId, row: Row)
    | Send(id: DeliveryId, action: Action, key: Key)
    | Heard(id: DeliveryId, key: Key, ok: bool)
    | Reply(id: DeliveryId, status: Status)
    | SendManual(key: Key, thread: ThreadId, action: Action, request: Key)
    | HeardManual(key: Key)
    | Asked(key: Key, turnStart: bool)
    | Told(key: Key)
    | Active(thread: ThreadId, turn: Name)
    | Boundary(replies: map<DeliveryId, Status>)

  /* ---- Readings of a log ---- */

  /** The durable ledger: the last committed row of each delivery. */
  function Replay(log: seq<Effect>): map<DeliveryId, Row> {
    if log == [] then map[]
    else
      var before := Replay(log[..|log| - 1]);
      match log[|log| - 1]
      case Persist(id, row) => before[id := row]
      case _ => before
  }

  datatype Mark = Wrote(action: Action) | Got(ok: bool)

  /** What happened upstream to one delivery id, over all epochs. */
  function Story(log: seq<Effect>, id: DeliveryId): seq<Mark> {
    if log == [] then []
    else
      var before := Story(log[..|log| - 1], id);
      match log[|log| - 1]
      case Send(d, action, _) => if d == id then before + [Wrote(action)] else before
      case Heard(d, _, ok) => if d == id then before + [Got(ok)] else before
      case _ => before
  }

  /** turn/start requests on a thread that were written in this epoch and not answered. */
  function OpenStarts(log: seq<Effect>, t: ThreadId): set<Key> {
    if log == [] then {}
    else
      var before := OpenStarts(log[..|log| - 1], t);
      match log[|log| - 1]
      case Send(d, Start, k) => if d.identity.thread == t then before + {k} else before
      case SendManual(k, u, Start, _) => if u == t then before + {k} else before
      case Heard(_, k, _) => before - {k}
      case HeardManual(k) => before - {k}
      case Boundary(_) => {}
      case _ => before
  }

  /** The turn the gateway takes to be running on a thread. */
  function ActiveOf(log: seq<Effect>, t: ThreadId): Name {
    if log == [] then NO_NAME
    else
      var before := ActiveOf(log[..|log| - 1], t);
      match log[|log| - 1]
      case Active(u, turn) => if u == t then turn else before
      case Boundary(_) => NO_NAME
      case _ => before
  }

  /** Request ids the TUI has used in this epoch. */
  function AskedKeys(log: seq<Effect>): set<Key> {
    if log == [] then {}
    else
      var before := AskedKeys(log[..|log| - 1]);
      match log[|log| - 1]
      case Asked(k, _) => before + {k}
      case Boundary(_) => {}
      case _ => before
  }

  /** Manual turn/start requests the TUI still waits for in this epoch. */
  function OpenTurns(log: seq<Effect>): set<Key> {
    if log == [] then {}
    else
      var before := OpenTurns(log[..|log| - 1]);
      match log[|log| - 1]
      case Asked(k, turnStart) => if turnStart then before + {k} else before
      case Told(k) => before - {k}
      case Boundary(_) => {}
      case _ => before
  }

  /** Ids under which the gateway itself wrote a request upstream in this epoch. */
  function WrittenKeys(log: seq<Effect>): set<Key> {
    if log == [] then {}
    else
      var before := WrittenKeys(log[..|log| - 1]);
      match log[|log| - 1]
      case Send(_, _, k) => before + {k}
      case SendManual(k, _, _, _) => before + {k}
      case Boundary(_) => {}
      case _ => before
  }

  /* ---- Legal logs ---- */

  /** Where one delivery stands. `Lost`: committed as sent when its epoch ended. */
  datatype Stage =
    | Absent
    | Ready
    | Marked(action: Action)
    | Written(action: Action)
    | SteerRefused
    | Answered
    | Denied
    | Closed(accepted: bool)
    | Lost
    | Illegal

  predicate Unsent(stage: Stage) {
    stage.Absent? || stage.Ready?
  }

  function AfterPersist(stage: Stage, row: Row): Stage {
    match (stage, row.state)
    case (Absent, Prepared) => Ready
    case (Ready, Sent) => if row.action == BySteer then Marked(Steer) else if row.action == ByStart then Marked(Start) else Illegal
    case (SteerRefused, Sent) => if row.action == ByStart then Marked(Start) else Illegal
    case (Ready, Rejected) => Closed(false)
    case (Answered, Rejected) => Closed(false)
    case (Denied, Rejected) => Closed(false)
    case (Answered, Accepted) => Closed(true)
    case _ => Illegal
  }

  function AfterHeard(stage: Stage, ok: bool): Stage {
    match stage
    case Written(action) => if ok then Answered else if action.Steer? then SteerRefused else Denied
    case _ => Illegal
  }

  function AfterBoundary(stage: Stage): Stage {
    match stage
    case Marked(_) => Lost
    case Written(_) => Lost
    case SteerRefused => Lost
    case Answered => Lost
    case Denied => Lost
    case _ => stage
  }

  predicate HonestReply(stage: Stage, status: Status) {
    && (status.SaysAccepted? ==> stage == Closed(true))
    && (status.SaysRetryable? ==> Unsent(stage))
  }

  function Advance(stage: Stage, id: DeliveryId, e: Effect): Stage {
    match e
    case Persist(d, row) =>
      if d != id then stage else if row.identity != id.identity then Illegal else AfterPersist(stage, row)
    case Send(d, action, _) => if d != id then stage else if stage == Marked(action) then Written(action) else Illegal
    case Heard(d, _, ok) => if d == id then AfterHeard(stage, ok) else stage
    case Reply(d, status) => if d == id && !HonestReply(stage, status) then Illegal else stage
    case Boundary(replies) =>
      if id in replies && !HonestReply(stage, replies[id]) then Illegal else AfterBoundary(stage)
    case _ => stage
  }

  function StageOf(log: seq<Effect>, id: DeliveryId): Stage {
    if log == [] then Absent else Advance(StageOf(log[..|log| - 1], id), id, log[|log| - 1])
  }

  /** A start is written only on a thread with no active turn and no unanswered start. */
  predicate StartAllowed(before: seq<Effect>, e: Effect) {
    match e
    case Send(d, Start, _) => ActiveOf(before, d.identity.thread) == NO_NAME && OpenStarts(before, d.identity.thread) == {}
    case SendManual(_, t, Start, _) => ActiveOf(before, t) == NO_NAME && OpenStarts(before, t) == {}
    case _ => true
  }

  ghost predicate LegalNext(before: seq<Effect>, e: Effect) {
    && (forall id :: !Advance(StageOf(before, id), id, e).Illegal?)
    && StartAllowed(before, e)
  }

  ghost predicate Legal(log: seq<Effect>) {
    log == [] || (Legal(log[..|log| - 1]) && LegalNext(log[..|log| - 1], log[|log| - 1]))
  }

  /* ---- What every legal log says ---- */

  lemma {:induction false} LegalPrefix(log: seq<Effect>, n: nat)
    requires Legal(log) && n <= |log|
    ensures Legal(log[..n])
  {
    if n == |log| {
      assert log[..n] == log;
    } else {
      LegalPrefix(log[..|log| - 1], n);
      assert log[..|log| - 1][..n] == log[..n];
    }
  }

  lemma LegalAt(log: seq<Effect>, i: nat)
    requires Legal(log) && i < |log|
    ensures Legal(log[..i]) && LegalNext(log[..i], log[i])
  {
    LegalPrefix(log, i + 1);
    assert log[..i + 1][..i] == log[..i];
  }

  /** The complete list of histories a delivery may have upstream. */
  predicate OnceOnly(story: seq<Mark>) {
    || story == []
    || (|story| <= 2 && story[0].Wrote? && (|story| == 2 ==> story[1].Got?))
    || (&& 3 <= |story| <= 4
        && story[..3] == [Wrote(Steer), Got(false), Wrote(Start)]
        && (|story| == 4 ==> story[3].Got?))
  }

  predicate StageFits(stage: Stage, story: seq<Mark>, ledger: map<DeliveryId, Row>, id: DeliveryId) {
    && OnceOnly(story)
    && (id in ledger ==> ledger[id].identity == id.identity)
    && match stage
       case Absent => story == [] && id !in ledger
       case Ready => story == [] && id in ledger && ledger[id].state == Prepared
       case Marked(a) =>
         id in ledger && ledger[id].state == Sent &&
         (story == [] || (a == Start && story == [Wrote(Steer), Got(false)]))
       case Written(a) =>
         id in ledger && ledger[id].state == Sent &&
         (story == [Wrote(a)] || (a == Start && story == [Wrote(Steer), Got(false), Wrote(Start)]))
       case SteerRefused => id in ledger && ledger[id].state == Sent && story == [Wrote(Steer), Got(false)]
       case Answered => id in ledger && ledger[id].state == Sent && story != [] && story[|story| - 1] == Got(true)
       case Denied => id in ledger && ledger[id].state == Sent && story != [] && story[|story| - 1] == Got(false)
       case Closed(true) => id in ledger && ledger[id].state == Accepted && story != [] && story[|story| - 1] == Got(true)
       case Closed(false) => id in ledger && ledger[id].state == Rejected
       case Lost => id in ledger && ledger[id].state == Sent
       case Illegal => false
  }

  lemma {:induction false} StageFacts(log: seq<Effect>, id: DeliveryId)
    requires Legal(log)
    ensures StageFits(StageOf(log, id), Story(log, id), Replay(log), id)
  {
    if log != [] {
      StageFacts(log[..|log| - 1], id);
      var stage := StageOf(log[..|log| - 1], id);
      assert !Advance(stage, id, log[|log| - 1]).Illegal?;
    }
  }

  /** At most once: over all epochs a delivery is written as [], [steer], [start] or
      [steer, start], and the second write only follows an explicit refusal of the first. */
  lemma AtMostOnce(log: seq<Effect>, id: DeliveryId)
    requires Legal(log)
    ensures OnceOnly(Story(log, id))
  {
    StageFacts(log, id);
  }

  /** A delivery that was committed as sent when an epoch ended is never written again. */
  lemma {:induction false} NeverResent(log: seq<Effect>, b: nat, id: DeliveryId)
    requires Legal(log) && b < |log| && log[b].Boundary?
    requires id in Replay(log[..b]) && Replay(log[..b])[id].state == Sent
    ensures Story(log, id) == Story(log[..b], id)
    ensures id in Replay(log) && Replay(log)[id] == Replay(log[..b])[id]
    ensures StageOf(log, id) == Lost
  {
    var before := log[..|log| - 1];
    if b == |log| - 1 {
      StageFacts(before, id);
      assert LegalNext(before, log[b]);
    } else {
      assert before[..b] == log[..b];
      NeverResent(before, b, id);
      assert LegalNext(before, log[|log| - 1]);
    }
  }

  /** `retryable` is only said of a delivery nothing was ever written for, in any epoch. */
  lemma RetryableMeansUnsent(log: seq<Effect>, i: nat, id: DeliveryId)
    requires Legal(log) && i < |log|
    requires log[i] == Reply(id, SaysRetryable) ||
             (log[i].Boundary? && id in log[i].replies && log[i].replies[id] == SaysRetryable)
    ensures Story(log[..i], id) == []
  {
    LegalAt(log, i);
    StageFacts(log[..i], id);
    assert !Advance(StageOf(log[..i], id), id, log[i]).Illegal?;
  }

  /** `accepted` is only said after upstream answered the last write of that delivery without error. */
  lemma AcceptedMeansAnswered(log: seq<Effect>, i: nat, id: DeliveryId)
    requires Legal(log) && i < |log|
    requires log[i] == Reply(id, SaysAccepted) ||
             (log[i].Boundary? && id in log[i].replies && log[i].replies[id] == SaysAccepted)
    ensures var story := Story(log[..i], id);
            |story| >= 2 && story[|story| - 1] == Got(true) && story[|story| - 2].Wrote?
  {
    LegalAt(log, i);
    StageFacts(log[..i], id);
    assert !Advance(StageOf(log[..i], id), id, log[i]).Illegal?;
  }

  /** Accepted and rejected rows are absorbing, rows are never dropped, and identities never change. */
  lemma {:induction false} RowsAbsorbing(log: seq<Effect>, i: nat, id: DeliveryId)
    requires Legal(log) && i <= |log| && id in Replay(log[..i])
    ensures id in Replay(log)
    ensures Replay(log)[id].identity == Replay(log[..i])[id].identity == id.identity
    ensures Replay(log[..i])[id].state in {Accepted, Rejected} ==> Replay(log)[id] == Replay(log[..i])[id]
  {
    if i == |log| {
      assert log[..i] == log;
      StageFacts(log, id);
    } else {
      var before := log[..|log| - 1];
      assert before[..i] == log[..i];
      RowsAbsorbing(before, i, id);
      StageFacts(before, id);
      assert LegalNext(before, log[|log| - 1]);
      assert !Advance(StageOf(before, id), id, log[|log| - 1]).Illegal?;
      StageFacts(log, id);
    }
  }

  /** Every turn/start was written while no turn was active and none was unanswered. */
  lemma StartsWhenIdle(log: seq<Effect>, i: nat)
    requires Legal(log) && i < |log|
    ensures StartAllowed(log[..i], log[i])
  {
    LegalAt(log, i);
  }
}
