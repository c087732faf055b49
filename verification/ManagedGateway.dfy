/** The gateway object and its durable ledger, updated in place as the program does.

    Every handler is proved to move the object from one state of the gateway model to the next one. */
module ManagedGatewayObject {
  import opened Prelude
  import opened GatewayLog
  import opened GatewayModel

  class DeliveryLedger {
    var rows: map<DeliveryId, Row>

    constructor (stored: map<DeliveryId, Row>)
      ensures rows == stored
    {
      rows := stored;
    }

    /** Commits one row; a refused transition leaves the ledger as it was. */
    method Transition(id: DeliveryId, to: RowState, identity: Identity, action: RowAction, reason: Reason)
      returns (r: Result<Row, LedgerError>)
      modifies this
      ensures match GatewayModel.Transition(old(rows), id, to, identity, action, reason)
              case Ok(next) => rows == next && r == Ok(next[id])
              case Err(e) => rows == old(rows) && r == Err(e)
      ensures forall d :: d != id ==> (d in rows <==> d in old(rows)) && (d in rows ==> rows[d] == old(rows)[d])
      ensures id in old(rows) ==> id in rows && rows[id].identity == old(rows)[id].identity
      ensures id in old(rows) && old(rows)[id].state in {Accepted, Rejected} && r.Ok? ==> rows[id].state == old(rows)[id].state
    {
      if !Allowed(rows, id, to) { return Err(TransitionConflict); }
      if id in rows && rows[id].identity != identity { return Err(IdentityConflict); }
      var kept := if action == NoAction && id in rows then rows[id].action else action;
      var row := Row(to, identity, kept, reason);
      rows := rows[id := row];
      r := Ok(row);
    }
  }

  class ManagedGateway {
    const ledger: DeliveryLedger
    var live: bool
    var current: ThreadId
    var threads: map<ThreadId, ThreadState>
    var tui: map<Key, TuiRequest>
    var internal: map<Key, Flight>
    var waiting: set<DeliveryId>
    var nextKey: nat
    /** Socket writes the transport still takes, and whether the running handler has raised. */
    var fuel: nat
    var failed: bool
    ghost var log: seq<Effect>

    ghost function Abs(): State
      reads this, ledger
    {
      State(ledger.rows, live, current, threads, tui, internal, waiting, nextKey, fuel, failed, log)
    }

    constructor (ledger: DeliveryLedger, ghost history: seq<Effect>)
      requires ledger.rows == Replay(history)
      ensures Abs() == Restart(history) && this.ledger == ledger
    {
      this.ledger := ledger;
      live, current, threads, tui, internal, waiting := false, NO_NAME, map[], map[], map[], {};
      nextKey, fuel, failed, log := 1, 0, false, history;
    }

    function ThreadOf(t: ThreadId): (th: ThreadState)
      reads this
      ensures t in threads ==> th == threads[t]
      ensures t !in threads ==> th == FRESH_THREAD
    {
      if t in threads then threads[t] else FRESH_THREAD
    }

    method WriteSocket()
      modifies this
      ensures Abs() == Transport(old(Abs()))
    {
      if fuel == 0 { failed := true; } else { fuel := fuel - 1; }
    }

    method CommitRow(id: DeliveryId, to: RowState, action: RowAction, reason: Reason) returns (ok: bool)
      modifies this, ledger
      ensures ok == Transition(old(ledger.rows), id, to, id.identity, action, reason).Ok?
      ensures Abs() == Commit(old(Abs()), id, to, action, reason).(failed := old(failed))
      ensures !ok ==> Abs() == old(Abs())
    {
      var r := ledger.Transition(id, to, id.identity, action, reason);
      ok := r.Ok?;
      if ok { log := log + [Persist(id, r.value)]; }
    }

    method SendCompletion(id: DeliveryId, action: Action, deferred: bool)
      modifies this, ledger
      ensures Abs() == GatewayModel.SendCompletion(old(Abs()), id, action, deferred)
    {
      if failed { return; }
      var k := FileFlight(if action.Steer? then Steering(id) else Starting(id, deferred));
      if !Fits(id) { failed := true; return; }
      if action.Start? { SetPending(id.identity.thread, k); }
      CommitAndSend(id, action, k);
    }

    /** Files a flight under the next id of the gateway's own. */
    method FileFlight(flight: Flight) returns (k: Key)
      modifies this
      ensures k == Managed(old(nextKey))
      ensures Abs() == GatewayModel.FileFlight(old(Abs()), flight)
    {
      k := Managed(nextKey);
      nextKey := nextKey + 1;
      internal := internal[k := flight];
    }

    /** The row is committed as sent before the request is written. */
    method CommitAndSend(id: DeliveryId, action: Action, k: Key)
      requires !failed
      modifies this, ledger
      ensures Abs() == GatewayModel.CommitAndSend(old(Abs()), id, action, k)
    {
      var ok := CommitRow(id, Sent, RowActionOf(action), NoReason);
      if !ok { failed := true; return; }
      log := log + [Send(id, action, k)];
      WriteSocket();
    }

    method SetPending(t: ThreadId, k: Key)
      modifies this
      ensures Abs() == GatewayModel.SetPending(old(Abs()), t, k)
    {
      threads := threads[t := ThreadOf(t).(steerReady := false, pendingStart := Some(k))];
    }

    method SendManualSteer(key: Key, t: ThreadId)
      modifies this
      ensures Abs() == GatewayModel.SendManualSteer(old(Abs()), key, t)
    {
      if failed { return; }
      var k := FileFlight(ManualSteering(key, t));
      log := log + [SendManual(k, t, Steer, key)];
      WriteSocket();
    }

    method TellTui(key: Option<Key>)
      modifies this
      ensures Abs() == GatewayModel.TellTui(old(Abs()), key)
    {
      if failed { return; }
      if key.Some? { log := log + [Told(key.value)]; }
      WriteSocket();
    }

    method AcceptDelivery(id: DeliveryId, action: RowAction)
      requires !failed
      modifies this, ledger
      ensures Abs() == Accept(old(Abs()), id, action)
    {
      var ok := CommitRow(id, Accepted, action, NoReason);
      waiting := waiting - {id};
      log := log + [Reply(id, if ok then SaysAccepted else SaysAmbiguous)];
    }

    method RejectDelivery(id: DeliveryId, reason: Reason)
      modifies this, ledger
      ensures Abs() == Reject(old(Abs()), id, reason)
    {
      var ok := CommitRow(id, Rejected, NoAction, reason);
      waiting := waiting - {id};
      log := log + [Reply(id, SaysRejected)];
    }

    /** Answers every queued item of a thread with a failure, oldest first. */
    method FailQueued(t: ThreadId, reason: Reason)
      modifies this, ledger
      ensures Abs() == GatewayModel.FailQueued(old(Abs()), t, reason)
    {
      var queued := ThreadOf(t).queued;
      threads := threads[t := ThreadOf(t).(queued := [])];
      ghost var taken := Abs();
      var i := 0;
      while i < |queued|
        invariant i <= |queued|
        invariant FailItems(Abs(), queued[i..], reason) == FailItems(taken, queued, reason)
      {
        if !failed {
          match queued[i]
          case Manual(key, _) => TellTui(Some(key));
          case Completion(id) => RejectDelivery(id, reason);
        }
        assert queued[i..][1..] == queued[i + 1..];
        i := i + 1;
      }
    }

    /** Steers every queued item of a thread into its running turn, oldest first. */
    method DrainQueued(t: ThreadId)
      modifies this, ledger
      ensures Abs() == Drain(old(Abs()), t)
    {
      if ThreadOf(t).active == NO_NAME {
        FailQueued(t, ActiveTurnMissing);
        return;
      }
      var queued := ThreadOf(t).queued;
      threads := threads[t := ThreadOf(t).(queued := [])];
      ghost var taken := Abs();
      var i := 0;
      while i < |queued|
        invariant i <= |queued|
        invariant SteerItems(Abs(), queued[i..]) == SteerItems(taken, queued)
      {
        match queued[i] {
          case Manual(key, thread) => SendManualSteer(key, thread);
          case Completion(id) => SendCompletion(id, Steer, false);
        }
        assert queued[i..][1..] == queued[i + 1..];
        i := i + 1;
      }
    }

    method StartNextIdle(t: ThreadId)
      modifies this, ledger
      ensures Abs() == GatewayModel.StartNextIdle(old(Abs()), t)
    {
      var th := ThreadOf(t);
      if th.active != NO_NAME || th.pendingStart.Some? || th.idle == [] { return; }
      threads := threads[t := th.(idle := th.idle[1..])];
      SendCompletion(th.idle[0], Start, true);
    }

    method ManualStart(key: Key, t: ThreadId)
      modifies this
      ensures Abs() == GatewayModel.ManualStart(old(Abs()), key, t)
    {
      log := log + [Asked(key, true)];
      current := t;
      var th := ThreadOf(t);
      threads := threads[t := th];
      if th.active != NO_NAME && th.steerReady {
        SendManualSteer(key, t);
      } else if th.active != NO_NAME || th.pendingStart.Some? {
        threads := threads[t := th.(queued := th.queued + [Manual(key, t)])];
      } else {
        threads := threads[t := th.(steerReady := false, pendingStart := Some(key))];
        tui := tui[key := TurnStart(t)];
        log := log + [SendManual(key, t, Start, key)];
        WriteSocket();
      }
    }

    method Forward(key: Option<Key>, request: TuiRequest)
      modifies this
      ensures Abs() == GatewayModel.Forward(old(Abs()), key, request)
    {
      if key.Some? {
        tui := tui[key.value := request];
        log := log + [Asked(key.value, false)];
      }
      WriteSocket();
    }

    method SetActiveTurn(t: ThreadId, turn: Name)
      modifies this
      ensures Abs() == SetActive(old(Abs()), t, turn)
    {
      threads := threads[t := ThreadOf(t).(active := turn)];
      log := log + [Active(t, turn)];
    }

    method StartAnswered(id: DeliveryId, deferred: bool, m: Message)
      requires !failed
      modifies this, ledger
      ensures Abs() == GatewayModel.StartAnswered(old(Abs()), id, deferred, m)
    {
      var t := id.identity.thread;
      threads := threads[t := ThreadOf(t).(pendingStart := None)];
      if m.hasError {
        RejectDelivery(id, TurnStartRejected);
        FailQueued(t, CompletionStartRejected);
      } else if m.turn == NO_NAME {
        RejectDelivery(id, TurnStartInvalid);
        FailQueued(t, CompletionStartInvalid);
      } else {
        SetActiveTurn(t, m.turn);
        AcceptDelivery(id, if deferred then ByStartAfterRefusal else ByStart);
        if ThreadOf(t).steerReady { DrainQueued(t); }
      }
    }

    method SteerAnswered(id: DeliveryId, m: Message)
      requires !failed
      modifies this, ledger
      ensures Abs() == GatewayModel.SteerAnswered(old(Abs()), id, m)
    {
      var t := id.identity.thread;
      var th := ThreadOf(t);
      threads := threads[t := if m.hasError then th.(idle := th.idle + [id]) else th];
      if m.hasError {
        StartNextIdle(t);
      } else if m.turn != NO_NAME && m.turn != th.active {
        RejectDelivery(id, SteerIdMismatch);
      } else {
        AcceptDelivery(id, BySteer);
      }
    }

    method InternalAnswered(k: Key, m: Message)
      requires k in internal && !failed
      modifies this, ledger
      ensures Abs() == GatewayModel.InternalAnswered(old(Abs()), k, m)
    {
      var flight := internal[k];
      internal := internal - {k};
      match flight
      case Starting(id, deferred) =>
        log := log + [Heard(id, k, !m.hasError)];
        StartAnswered(id, deferred, m);
      case Steering(id) =>
        log := log + [Heard(id, k, !m.hasError)];
        SteerAnswered(id, m);
      case ManualSteering(key, t) =>
        log := log + [HeardManual(k)];
        threads := threads[t := ThreadOf(t)];
        TellTui(Some(key));
    }

    method ManualStartAnswered(k: Key, t: ThreadId, m: Message)
      modifies this, ledger
      ensures Abs() == GatewayModel.ManualStartAnswered(old(Abs()), k, t, m)
    {
      var th := ThreadOf(t);
      threads := threads[t := if th.pendingStart == Some(k) then th.(pendingStart := None) else th];
      if m.hasError {
        FailQueued(t, ManualStartRejected);
      } else if m.turn == NO_NAME {
        FailQueued(t, ManualStartInvalid);
      } else {
        SetActiveTurn(t, m.turn);
        if ThreadOf(t).steerReady { DrainQueued(t); }
      }
    }

    method TuiAnswered(k: Key, m: Message)
      requires k in tui
      modifies this, ledger
      ensures Abs() == GatewayModel.TuiAnswered(old(Abs()), k, m)
    {
      var request := tui[k];
      tui := tui - {k};
      log := log + [HeardManual(k)];
      match request
      case TurnStart(t) => ManualStartAnswered(k, t, m);
      case ThreadOpen(asked) =>
        var t := if m.thread != NO_NAME then m.thread else asked;
        if !m.hasError && t != NO_NAME {
          current := t;
          threads := threads[t := ThreadOf(t)];
        }
      case OtherRequest =>
    }

    method TurnStarted(t: ThreadId, turn: Name)
      modifies this, ledger
      ensures Abs() == Started(old(Abs()), t, turn)
    {
      if t == NO_NAME || turn == NO_NAME { return; }
      current := t;
      SetActiveTurn(t, turn);
      threads := threads[t := ThreadOf(t).(steerReady := true)];
      if ThreadOf(t).pendingStart.None? && ThreadOf(t).queued != [] { DrainQueued(t); }
    }

    method TurnCompleted(t: ThreadId, turn: Name)
      modifies this, ledger
      ensures Abs() == Completed(old(Abs()), t, turn)
    {
      if t !in threads || (turn != NO_NAME && threads[t].active != turn) { return; }
      SetActiveTurn(t, NO_NAME);
      threads := threads[t := ThreadOf(t).(steerReady := false)];
      StartNextIdle(t);
    }

    method HandleUpstream(m: Message)
      requires !failed
      modifies this, ledger
      ensures Abs() == Upstream(old(Abs()), m)
    {
      if m.key.Some? && m.key.value in internal {
        InternalAnswered(m.key.value, m);
      } else if m.key.Some? && (m.hasResult || m.hasError) {
        if m.key.value in tui { TuiAnswered(m.key.value, m); }
        TellTui(m.key);
      } else {
        match m.kind {
          case TurnStarted => TurnStarted(m.thread, m.turn);
          case TurnCompleted => TurnCompleted(m.thread, m.turn);
          case OtherMethod =>
        }
        TellTui(None);
      }
    }

    method Answer(id: DeliveryId, status: Status)
      modifies this
      ensures Abs() == Emit(old(Abs()), Reply(id, status))
    {
      log := log + [Reply(id, status)];
    }

    method Deliver(id: DeliveryId)
      requires !failed
      modifies this, ledger
      ensures Abs() == GatewayModel.Deliver(old(Abs()), id)
    {
      var t := id.identity.thread;
      var known := id in ledger.rows;
      if known && ledger.rows[id].state == Accepted { Answer(id, SaysAccepted); return; }
      if known && ledger.rows[id].state == Sent {
        if id !in waiting { Answer(id, SaysAmbiguous); }
        return;
      }
      if known && ledger.rows[id].state == Rejected { Answer(id, SaysRejected); return; }
      if !live { Answer(id, SaysRetryable); return; }
      if current != t { Answer(id, SaysRejected); return; }
      if !known { var _ := CommitRow(id, Prepared, NoAction, NoReason); }
      waiting := waiting + {id};
      var th := ThreadOf(t);
      threads := threads[t := th];
      if th.active != NO_NAME && th.steerReady {
        SendCompletion(id, Steer, false);
      } else if th.active != NO_NAME || th.pendingStart.Some? {
        threads := threads[t := th.(queued := th.queued + [Completion(id)])];
      } else {
        SendCompletion(id, Start, false);
      }
    }

    /** Answers every waiting producer and forgets the epoch. */
    method Disconnect()
      modifies this
      ensures Abs() == GatewayModel.Disconnect(old(Abs()))
    {
      if !live { return; }
      var replies: map<DeliveryId, Status> := map[];
      var left := waiting;
      while left != {}
        invariant left <= waiting && replies.Keys == waiting - left
        invariant forall id :: id in replies ==> replies[id] == HangupReplies(Abs())[id]
        decreases left
      {
        var id :| id in left;
        var row := if id in ledger.rows then Some(ledger.rows[id].state) else None;
        replies := replies[id := if row == Some(Sent) then SaysAmbiguous else SaysRetryable];
        left := left - {id};
      }
      assert replies == HangupReplies(Abs());
      live, current, threads, tui, internal, waiting := false, NO_NAME, map[], map[], map[], {};
      log := log + [Boundary(replies)];
    }

    method Connect()
      modifies this
      ensures Abs() == GatewayModel.Connect(old(Abs()))
    {
      if live { return; }
      live, current, threads, tui, internal, waiting := true, NO_NAME, map[], map[], map[], {};
    }

    method Dispatch(call: Call)
      requires !failed
      modifies this, ledger
      ensures Abs() == Handle(old(Abs()), call)
    {
      match call
      case DoConnect => Connect();
      case DoDisconnect => Disconnect();
      case TuiTurnStart(key, t) => if live { ManualStart(key, t); }
      case TuiBadTurnStart => if live { WriteSocket(); }
      case TuiForward(key, request) => if live { Forward(key, request); }
      case FromUpstream(m) => if live { HandleUpstream(m); }
      case DoDeliver(id) => Deliver(id);
      case WaitExpired(id) => Answer(id, SaysAmbiguous);
    }

    /** One call under the lock, with what follows when its handler raised. */
    method Perform(call: Call, writes: nat)
      modifies this, ledger
      ensures Abs() == GatewayModel.Perform(old(Abs()), call, writes)
    {
      fuel, failed := writes, false;
      Dispatch(call);
      if failed {
        failed := false;
        if call.DoDeliver? { Answer(call.id, SaysRejected); } else { Disconnect(); }
      }
    }

    /** A whole run of calls without a crash; a restart is a new object on the kept ledger. */
    method Serve(calls: seq<(Call, nat)>)
      modifies this, ledger
      ensures Abs() == Continue(old(Abs()), seq(|calls|, i requires 0 <= i < |calls| => Run(calls[i].0, calls[i].1)))
    {
      ghost var events := seq(|calls|, i requires 0 <= i < |calls| => Run(calls[i].0, calls[i].1));
      ghost var before := Abs();
      var n := 0;
      while n < |calls|
        invariant n <= |calls|
        invariant Continue(Abs(), events[n..]) == Continue(before, events)
      {
        assert events[n..][0] == Run(calls[n].0, calls[n].1) && events[n..][1..] == events[n + 1..];
        Perform(calls[n].0, calls[n].1);
        n := n + 1;
      }
    }
  }
}
