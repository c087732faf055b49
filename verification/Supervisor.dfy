/** The continuation loop of the session supervisors: run a turn, hand over completion receipts for
    new children, have open ones closed, and stop when no child is left open. */
module Supervisor {
  import opened Prelude

  type Attempt = string

  datatype ChildStatus = Open | Running | Closed

  /* ---- Receipts ---- */

  /** A child entry as it was read; a missing attempt id is no string. */
  datatype RawChild = RawChild(attempt: Option<Attempt>, status: string, readiness: string, reason: string, action: string)

  datatype RawReceipt = RawReceipt(schema: int, state: string, parent: string, children: Option<seq<RawChild>>) | NoReceipt

  datatype Receipt = Receipt(state: string, parent: string, children: seq<RawChild>)

  datatype ReceiptError = SchemaInvalid | StateInvalid | ParentMismatch | ChildrenInvalid | ChildInvalid | SetMismatch

  predicate ChildFine(c: RawChild, attempts: set<Attempt>) {
    && c.attempt.Some? && c.attempt.value in attempts
    && c.status in {"open", "running", "done"} && c.readiness in {"ready", "pending"}
    && c.reason in {"registry-closed", "terminal-observed", "process-alive", "process-unverifiable"}
    && c.action in {"complete-open", "inspect-done-failure", "advance-completed"}
  }

  function AttemptsOf(children: seq<RawChild>): set<Attempt> {
    set i | 0 <= i < |children| && children[i].attempt.Some? :: children[i].attempt.value
  }

  predicate NoneTwice(children: seq<RawChild>) {
    forall i, j :: 0 <= i < j < |children| ==> children[i].attempt != children[j].attempt
  }

  /** Well-formed children, none twice, and exactly the requested ones. */
  predicate ReceiptFine(raw: RawReceipt, parent: string, attempts: set<Attempt>) {
    && raw.RawReceipt? && raw.schema == 2 && raw.state in {"ready", "timeout"} && raw.parent == parent && raw.children.Some?
    && (forall i :: 0 <= i < |raw.children.value| ==> ChildFine(raw.children.value[i], attempts))
    && NoneTwice(raw.children.value)
    && AttemptsOf(raw.children.value) == attempts
  }

  function Typed(raw: RawReceipt, parent: string, attempts: set<Attempt>): Option<Receipt> {
    if ReceiptFine(raw, parent, attempts) then Some(Receipt(raw.state, parent, raw.children.value)) else None
  }

  method TypedReceipt(raw: RawReceipt, parent: string, attempts: set<Attempt>) returns (r: Result<Receipt, ReceiptError>)
    ensures r.Ok? <==> ReceiptFine(raw, parent, attempts)
    ensures r.Ok? ==> Typed(raw, parent, attempts) == Some(r.value)
  {
    if raw.NoReceipt? || raw.schema != 2 { return Err(SchemaInvalid); }
    if raw.state != "ready" && raw.state != "timeout" { return Err(StateInvalid); }
    if raw.parent != parent { return Err(ParentMismatch); }
    if raw.children.None? { return Err(ChildrenInvalid); }
    var rows := raw.children.value;
    var observed: set<Attempt> := {};
    var i := 0;
    while i < |rows|
      invariant i <= |rows| && observed == AttemptsOf(rows[..i])
      invariant forall k :: 0 <= k < i ==> ChildFine(rows[k], attempts)
      invariant NoneTwice(rows[..i])
    {
      var c := rows[i];
      assert rows[..i + 1] == rows[..i] + [c];
      if !ChildFine(c, attempts) { return Err(ChildInvalid); }
      if c.attempt.value in observed {
        var k :| 0 <= k < i && rows[k].attempt == c.attempt;
        return Err(ChildInvalid);
      }
      assert forall k :: 0 <= k < i && rows[..i][k].attempt == c.attempt ==> c.attempt.value in AttemptsOf(rows[..i]);
      observed := observed + {c.attempt.value};
      i := i + 1;
    }
    assert rows[..i] == rows;
    if observed != attempts { return Err(SetMismatch); }
    r := Ok(Receipt(raw.state, parent, rows));
  }

  /* ---- The world around the loop ---- */

  datatype TurnResult = Succeeded | FailedWith(code: int) | TurnRaised

  /** Everything the loop reads, turn by turn. */
  datatype World = World(
    turn: nat -> TurnResult,
    rows: nat -> Option<map<Attempt, ChildStatus>>,
    receipt: nat -> RawReceipt,
    closes: nat -> set<Attempt>,
    reread: nat -> bool,
    settles: nat -> bool,
    passes: nat -> bool)

  function OpenAt(w: World, t: nat): set<Attempt> {
    match w.rows(t)
    case None => {}
    case Some(rows) => set a | a in rows && rows[a] != Closed
  }

  predicate ListedAt(w: World, a: Attempt, t: nat) {
    w.rows(t).Some? && a in w.rows(t).value
  }

  /** A child that was listed and is found not open, or is closed by the supervisor, stays closed. */
  ghost predicate NeverReopens(w: World) {
    forall a, s: nat, t: nat, u: nat :: s <= t < u && ListedAt(w, a, s) && (a !in OpenAt(w, t) || a in w.closes(t)) ==> a !in OpenAt(w, u)
  }

  /* ---- One turn ---- */

  datatype Batch = Batch(attempts: set<Attempt>, receipt: Receipt)

  datatype Loop = Loop(
    delivered: set<Attempt>,
    remediated: set<set<Attempt>>,
    continuations: nat,
    turn: nat,
    batches: seq<Batch>)

  const START := Loop({}, {}, 0, 0, [])

  datatype Next = Go(state: Loop) | Stop(code: int)

  function Deliver(w: World, parent: string, max: nat, s: Loop, unseen: set<Attempt>): Next {
    if s.continuations >= max then Stop(70)
    else
      match Typed(w.receipt(s.turn), parent, unseen)
      case None => Stop(70)
      case Some(r) =>
        Go(s.(delivered := s.delivered + unseen, continuations := s.continuations + 1, turn := s.turn + 1,
              batches := s.batches + [Batch(unseen, r)]))
  }

  /** Children proven finished are closed first; only what is left is put to the model again. */
  function Remediate(w: World, max: nat, s: Loop, unresolved: set<Attempt>): Next {
    var left := unresolved - w.closes(s.turn);
    if left == {} then if w.reread(s.turn) then Go(s.(turn := s.turn + 1)) else Stop(70)
    else if left in s.remediated || s.continuations >= max then Stop(70)
    else Go(s.(remediated := s.remediated + {left}, continuations := s.continuations + 1, turn := s.turn + 1))
  }

  function Turn(w: World, parent: string, max: nat, s: Loop): Next {
    match w.turn(s.turn)
    case TurnRaised => Stop(70)
    case FailedWith(code) => Stop(if !w.settles(s.turn) then 70 else if code != 0 then code else 3)
    case Succeeded =>
      match w.rows(s.turn)
      case None => Stop(70)
      case Some(rows) =>
        var unseen := rows.Keys - s.delivered;
        var unresolved := OpenAt(w, s.turn);
        if unseen != {} then Deliver(w, parent, max, s, unseen)
        else if unresolved != {} then Remediate(w, max, s, unresolved)
        else Stop(if !w.settles(s.turn) then 70 else if w.passes(s.turn) then 0 else 3)
  }

  /* ---- What every turn keeps ---- */

  predicate Disjoint(batches: seq<Batch>) {
    forall i, j :: 0 <= i < j < |batches| ==> batches[i].attempts !! batches[j].attempts
  }

  ghost predicate Delivered(s: Loop) {
    && (forall a :: a in s.delivered <==> exists i :: 0 <= i < |s.batches| && a in s.batches[i].attempts)
    && Disjoint(s.batches)
    && forall i :: 0 <= i < |s.batches| ==>
         AttemptsOf(s.batches[i].receipt.children) == s.batches[i].attempts && NoneTwice(s.batches[i].receipt.children)
  }

  /** No delivered child will be found open from this turn on. */
  ghost predicate Quiet(w: World, s: Loop) {
    forall a, u: nat :: a in s.delivered && u >= s.turn ==> a !in OpenAt(w, u)
  }

  ghost predicate Listed(w: World, s: Loop) {
    forall a :: a in s.delivered ==> exists t :: 0 <= t < s.turn && ListedAt(w, a, t)
  }

  /** The turns taken so far are paid for by continuations, two for one. */
  ghost predicate Timely(w: World, max: nat, s: Loop) {
    && Listed(w, s) && s.continuations <= max
    && s.turn <= 2 * s.continuations + 1
    && (s.turn == 2 * s.continuations + 1 ==> Quiet(w, s))
  }

  /** Receipts stay disjoint and complete in every world, whether children reopen or not. */
  lemma TurnDelivered(w: World, parent: string, max: nat, s: Loop)
    requires Delivered(s)
    ensures var n := Turn(w, parent, max, s); n.Go? ==> Delivered(n.state) && n.state.turn == s.turn + 1
  {
    if w.turn(s.turn) == Succeeded && w.rows(s.turn).Some? {
      var unseen := w.rows(s.turn).value.Keys - s.delivered;
      if unseen != {} { BatchDelivered(w, parent, max, s, unseen); }
    }
  }

  lemma BatchDelivered(w: World, parent: string, max: nat, s: Loop, unseen: set<Attempt>)
    requires Delivered(s) && unseen !! s.delivered
    ensures var n := Deliver(w, parent, max, s, unseen); n.Go? ==> Delivered(n.state)
  {
    var n := Deliver(w, parent, max, s, unseen);
    if n.Go? {
      var batches := n.state.batches;
      assert batches[|s.batches|].attempts == unseen;
      forall a ensures a in n.state.delivered <==> exists i :: 0 <= i < |batches| && a in batches[i].attempts {
        if a in s.delivered {
          var i :| 0 <= i < |s.batches| && a in s.batches[i].attempts;
          assert batches[i] == s.batches[i];
        }
        if i :| 0 <= i < |batches| && a in batches[i].attempts {
          if i < |s.batches| { assert s.batches[i] == batches[i]; }
        }
      }
      forall i, j | 0 <= i < j < |batches| ensures batches[i].attempts !! batches[j].attempts {
        if j == |s.batches| {
          forall a | a in batches[i].attempts ensures a !in unseen { assert a in s.batches[i].attempts; }
        }
      }
    }
  }

  lemma DeliverKeeps(w: World, parent: string, max: nat, s: Loop, unseen: set<Attempt>)
    requires Timely(w, max, s) && w.rows(s.turn).Some? && unseen == w.rows(s.turn).value.Keys - s.delivered
    ensures var n := Deliver(w, parent, max, s, unseen); n.Go? ==> Timely(w, max, n.state)
  {
    var n := Deliver(w, parent, max, s, unseen);
    if n.Go? {
      forall a | a in n.state.delivered ensures exists t :: 0 <= t < n.state.turn && ListedAt(w, a, t) {
        if a in unseen { assert ListedAt(w, a, s.turn); }
      }
    }
  }

  lemma QuietAfterClosing(w: World, s: Loop)
    requires NeverReopens(w) && Listed(w, s) && OpenAt(w, s.turn) <= w.closes(s.turn)
    ensures Quiet(w, s.(turn := s.turn + 1))
  {
    forall a, u: nat | a in s.delivered && u >= s.turn + 1 ensures a !in OpenAt(w, u) {
      var t :| 0 <= t < s.turn && ListedAt(w, a, t);
      assert a !in OpenAt(w, s.turn) || a in w.closes(s.turn);
    }
  }

  lemma RemediateKeeps(w: World, max: nat, s: Loop)
    requires NeverReopens(w) && Timely(w, max, s) && w.rows(s.turn).Some? && w.rows(s.turn).value.Keys <= s.delivered
    requires OpenAt(w, s.turn) != {}
    ensures var n := Remediate(w, max, s, OpenAt(w, s.turn)); n.Go? ==> Timely(w, max, n.state)
  {
    var a :| a in OpenAt(w, s.turn);
    assert a in s.delivered;
    assert !Quiet(w, s);
    if OpenAt(w, s.turn) - w.closes(s.turn) == {} {
      forall x | x in OpenAt(w, s.turn) ensures x in w.closes(s.turn) {
        assert x !in OpenAt(w, s.turn) - w.closes(s.turn);
      }
      QuietAfterClosing(w, s);
    }
  }

  lemma TurnKeeps(w: World, parent: string, max: nat, s: Loop)
    requires NeverReopens(w) && Timely(w, max, s)
    ensures var n := Turn(w, parent, max, s); n.Go? ==> Timely(w, max, n.state) && n.state.turn == s.turn + 1
  {
    if w.turn(s.turn) == Succeeded && w.rows(s.turn).Some? {
      var unseen := w.rows(s.turn).value.Keys - s.delivered;
      if unseen != {} {
        DeliverKeeps(w, parent, max, s, unseen);
      } else if OpenAt(w, s.turn) != {} {
        forall x | x in w.rows(s.turn).value.Keys ensures x in s.delivered { assert x !in unseen; }
        RemediateKeeps(w, max, s);
      }
    }
  }

  /* ---- The loop ---- */

  /** Where a clean exit leaves every child of the last read. */
  predicate AllSettled(w: World, s: Loop) {
    && w.rows(s.turn).Some? && OpenAt(w, s.turn) == {}
    && forall a :: a in w.rows(s.turn).value ==>
         exists i :: 0 <= i < |s.batches| && a in s.batches[i].attempts
                     && forall j :: 0 <= j < |s.batches| && a in s.batches[j].attempts ==> j == i
  }

  lemma StopSettled(w: World, parent: string, max: nat, s: Loop)
    requires Delivered(s) && Turn(w, parent, max, s) == Stop(0)
    ensures AllSettled(w, s)
  {
    var rows := w.rows(s.turn).value;
    forall a | a in rows
      ensures exists i :: 0 <= i < |s.batches| && a in s.batches[i].attempts
                          && forall j :: 0 <= j < |s.batches| && a in s.batches[j].attempts ==> j == i
    {
      assert a !in rows.Keys - s.delivered;
      var i :| 0 <= i < |s.batches| && a in s.batches[i].attempts;
      forall j | 0 <= j < |s.batches| && a in s.batches[j].attempts ensures j == i {
        assert Disjoint(s.batches);
      }
    }
  }

  /** The loop after `n` turns, or where it stopped before. */
  function RunFor(w: World, parent: string, max: nat, s: Loop, n: nat): Next
    decreases n
  {
    if n == 0 then Go(s)
    else
      match Turn(w, parent, max, s)
      case Stop(code) => Stop(code)
      case Go(next) => RunFor(w, parent, max, next, n - 1)
  }

  lemma {:induction false} RunOneMore(w: World, parent: string, max: nat, s: Loop, n: nat, last: Loop)
    requires RunFor(w, parent, max, s, n) == Go(last)
    ensures RunFor(w, parent, max, s, n + 1) == Turn(w, parent, max, last)
    decreases n
  {
    if n > 0 { RunOneMore(w, parent, max, Turn(w, parent, max, s).state, n - 1, last); }
  }

  lemma {:induction false} RunDelivered(w: World, parent: string, max: nat, s: Loop, n: nat)
    requires Delivered(s) && RunFor(w, parent, max, s, n).Go?
    ensures var last := RunFor(w, parent, max, s, n).state; Delivered(last) && last.turn == s.turn + n
    decreases n
  {
    if n > 0 {
      var next := NextDelivered(w, parent, max, s, n);
      RunDelivered(w, parent, max, next, n - 1);
    }
  }

  lemma NextDelivered(w: World, parent: string, max: nat, s: Loop, n: nat) returns (next: Loop)
    requires Delivered(s) && n > 0 && RunFor(w, parent, max, s, n).Go?
    ensures Delivered(next) && next.turn == s.turn + 1 && RunFor(w, parent, max, s, n) == RunFor(w, parent, max, next, n - 1)
  {
    TurnDelivered(w, parent, max, s);
    next := Turn(w, parent, max, s).state;
  }

  lemma {:induction false} RunKeeps(w: World, parent: string, max: nat, s: Loop, n: nat)
    requires NeverReopens(w) && Timely(w, max, s) && RunFor(w, parent, max, s, n).Go?
    ensures var last := RunFor(w, parent, max, s, n).state; Timely(w, max, last) && last.turn == s.turn + n
    decreases n
  {
    if n > 0 {
      var next := NextTimely(w, parent, max, s, n);
      RunKeeps(w, parent, max, next, n - 1);
    }
  }

  lemma NextTimely(w: World, parent: string, max: nat, s: Loop, n: nat) returns (next: Loop)
    requires NeverReopens(w) && Timely(w, max, s) && n > 0 && RunFor(w, parent, max, s, n).Go?
    ensures Timely(w, max, next) && next.turn == s.turn + 1 && RunFor(w, parent, max, s, n) == RunFor(w, parent, max, next, n - 1)
  {
    TurnKeeps(w, parent, max, s);
    next := Turn(w, parent, max, s).state;
  }

  /** Closed children that stay closed bound the loop, although closing them costs no continuation. */
  lemma TurnsAreBounded(w: World, parent: string, max: nat)
    requires NeverReopens(w)
    ensures RunFor(w, parent, max, START, 2 * max + 2).Stop?
  {
    if RunFor(w, parent, max, START, 2 * max + 2).Go? {
      RunKeeps(w, parent, max, START, 2 * max + 2);
    }
  }

  /** A clean exit leaves every child of the last read delivered in exactly one receipt and not open. */
  lemma CleanExitCovers(w: World, parent: string, max: nat, n: nat, last: Loop)
    requires RunFor(w, parent, max, START, n) == Go(last) && Turn(w, parent, max, last) == Stop(0)
    ensures AllSettled(w, last) && Disjoint(last.batches)
    ensures forall i :: 0 <= i < |last.batches| ==> AttemptsOf(last.batches[i].receipt.children) == last.batches[i].attempts
  {
    RunDelivered(w, parent, max, START, n);
    StopSettled(w, parent, max, last);
  }

  /** At any turn of any run, the receipts handed over so far have no child in common. */
  lemma BatchesDisjoint(w: World, parent: string, max: nat, n: nat, last: Loop)
    requires RunFor(w, parent, max, START, n) == Go(last)
    ensures Disjoint(last.batches) && last.turn == n
  {
    RunDelivered(w, parent, max, START, n);
  }

  lemma RunBound(w: World, parent: string, max: nat, n: nat, last: Loop)
    requires NeverReopens(w) && RunFor(w, parent, max, START, n) == Go(last)
    ensures n <= 2 * max + 1 && Disjoint(last.batches)
    ensures Turn(w, parent, max, last) == Stop(0) ==> AllSettled(w, last)
  {
    RunKeeps(w, parent, max, START, n);
    BatchesDisjoint(w, parent, max, n, last);
    if Turn(w, parent, max, last) == Stop(0) { CleanExitCovers(w, parent, max, n, last); }
  }

  /** The supervisor as it runs; `last` is the state of its loop before the last turn. */
  method Supervise(w: World, parent: string, max: nat) returns (code: int, last: Loop)
    requires NeverReopens(w)
    ensures last.turn + 1 <= 2 * max + 2
    ensures RunFor(w, parent, max, START, last.turn) == Go(last) && Turn(w, parent, max, last) == Stop(code)
    ensures code == 0 ==> AllSettled(w, last)
    ensures Disjoint(last.batches)
  {
    var delivered: set<Attempt> := {};
    var remediated: set<set<Attempt>> := {};
    var continuations: nat := 0;
    var turn: nat := 0;
    var batches: seq<Batch> := [];
    while true
      invariant RunFor(w, parent, max, START, turn) == Go(Loop(delivered, remediated, continuations, turn, batches))
      decreases 2 * max + 2 - turn
    {
      last := Loop(delivered, remediated, continuations, turn, batches);
      RunBound(w, parent, max, turn, last);
      RunOneMore(w, parent, max, START, turn, last);
      if w.turn(turn) == TurnRaised { return 70, last; }
      if w.turn(turn).FailedWith? {
        var rc := w.turn(turn).code;
        return (if !w.settles(turn) then 70 else if rc != 0 then rc else 3), last;
      }
      var current := w.rows(turn);
      if current.None? { return 70, last; }
      var unseen := current.value.Keys - delivered;
      var unresolved := OpenAt(w, turn);
      if unseen != {} {
        if continuations >= max { return 70, last; }
        var receipt := TypedReceipt(w.receipt(turn), parent, unseen);
        if receipt.Err? { return 70, last; }
        batches := batches + [Batch(unseen, receipt.value)];
        delivered := delivered + unseen;
        continuations := continuations + 1;
      } else if unresolved != {} {
        var closed := w.closes(turn);
        var left := unresolved - closed;
        if left == {} {
          if !w.reread(turn) { return 70, last; }
        } else {
          if left in remediated || continuations >= max { return 70, last; }
          remediated := remediated + {left};
          continuations := continuations + 1;
        }
      } else {
        if !w.settles(turn) { return 70, last; }
        return (if w.passes(turn) then 0 else 3), last;
      }
      turn := turn + 1;
    }
  }

  /* ---- When the loop never stops ---- */

  /** A turn that only closes children and counts nothing: all of them were delivered before, some
      are open, and every open one is closed. */
  predicate ClosesOnly(w: World, delivered: set<Attempt>, t: nat) {
    && w.turn(t) == Succeeded && w.rows(t).Some? && w.rows(t).value.Keys <= delivered
    && OpenAt(w, t) != {} && OpenAt(w, t) <= w.closes(t) && w.reread(t)
  }

  /** From turn `n` on, the loop does nothing but close children that reopen. */
  ghost predicate ClosesForever(w: World, parent: string, max: nat, n: nat) {
    && RunFor(w, parent, max, START, n).Go?
    && forall t: nat :: t >= n ==> ClosesOnly(w, RunFor(w, parent, max, START, n).state.delivered, t)
  }

  /** A turn costs a continuation, or it is of that kind; and it costs at most one. */
  lemma TurnCounts(w: World, parent: string, max: nat, s: Loop)
    requires s.continuations <= max && Turn(w, parent, max, s).Go?
    ensures var next := Turn(w, parent, max, s).state;
            && next.turn == s.turn + 1 && s.continuations <= next.continuations <= max
            && (next.continuations == s.continuations ==> next == s.(turn := s.turn + 1) && ClosesOnly(w, s.delivered, s.turn))
  {
    var unseen := w.rows(s.turn).value.Keys - s.delivered;
    if unseen == {} {
      forall x | x in w.rows(s.turn).value.Keys ensures x in s.delivered { assert x !in unseen; }
      var left := OpenAt(w, s.turn) - w.closes(s.turn);
      if left == {} {
        forall x | x in OpenAt(w, s.turn) ensures x in w.closes(s.turn) { assert x !in left; }
      }
    }
  }

  lemma ClosingTurn(w: World, parent: string, max: nat, s: Loop)
    requires ClosesOnly(w, s.delivered, s.turn)
    ensures Turn(w, parent, max, s) == Go(s.(turn := s.turn + 1))
  {
    assert w.rows(s.turn).value.Keys - s.delivered == {};
    assert OpenAt(w, s.turn) - w.closes(s.turn) == {};
  }

  lemma {:induction false} RunCounts(w: World, parent: string, max: nat, s: Loop, n: nat)
    requires s.continuations <= max && RunFor(w, parent, max, s, n).Go?
    ensures var last := RunFor(w, parent, max, s, n).state;
            s.continuations <= last.continuations <= max && last.turn == s.turn + n
    decreases n
  {
    if n > 0 {
      TurnCounts(w, parent, max, s);
      RunCounts(w, parent, max, Turn(w, parent, max, s).state, n - 1);
    }
  }

  lemma {:induction false} RunSplits(w: World, parent: string, max: nat, s: Loop, m: nat, n: nat)
    ensures RunFor(w, parent, max, s, m + n) ==
            match RunFor(w, parent, max, s, m)
            case Stop(code) => Stop(code)
            case Go(middle) => RunFor(w, parent, max, middle, n)
    decreases m
  {
    if m > 0 && Turn(w, parent, max, s).Go? { RunSplits(w, parent, max, Turn(w, parent, max, s).state, m - 1, n); }
  }

  lemma {:induction false} ClosingRuns(w: World, parent: string, max: nat, s: Loop, n: nat)
    requires forall t: nat :: t >= s.turn ==> ClosesOnly(w, s.delivered, t)
    ensures RunFor(w, parent, max, s, n) == Go(s.(turn := s.turn + n))
    decreases n
  {
    if n > 0 {
      ClosingTurn(w, parent, max, s);
      ClosingRuns(w, parent, max, s.(turn := s.turn + 1), n - 1);
    }
  }

  /** Without another counted turn, each further turn is a closing one. */
  lemma {:induction false} UncountedRuns(w: World, parent: string, max: nat, s: Loop, n: nat)
    requires s.continuations <= max && RunFor(w, parent, max, s, n + 1).Go?
    requires forall k: nat :: k <= n + 1 && RunFor(w, parent, max, s, k).Go? ==> RunFor(w, parent, max, s, k).state.continuations == s.continuations
    ensures RunFor(w, parent, max, s, n) == Go(s.(turn := s.turn + n)) && ClosesOnly(w, s.delivered, s.turn + n)
    decreases n
  {
    RunSplits(w, parent, max, s, n, 1);
    if n > 0 { UncountedRuns(w, parent, max, s, n - 1); }
    var here := RunFor(w, parent, max, s, n).state;
    if n > 0 {
      RunSplits(w, parent, max, s, n - 1, 1);
      ClosingTurn(w, parent, max, s.(turn := s.turn + n - 1));
      OneTurn(w, parent, max, s.(turn := s.turn + n - 1));
    }
    OneTurn(w, parent, max, here);
    TurnCounts(w, parent, max, here);
  }

  lemma OneTurn(w: World, parent: string, max: nat, s: Loop)
    ensures RunFor(w, parent, max, s, 1) == Turn(w, parent, max, s)
  {
    if Turn(w, parent, max, s).Go? { assert RunFor(w, parent, max, Turn(w, parent, max, s).state, 0) == Turn(w, parent, max, s); }
  }

  /** An endless run has a last counted turn. */
  lemma {:induction false} LastCounted(w: World, parent: string, max: nat, n: nat) returns (m: nat)
    requires (forall k: nat :: RunFor(w, parent, max, START, k).Go?) && RunFor(w, parent, max, START, n).state.continuations <= max
    ensures forall k: nat :: k >= m ==>
              RunFor(w, parent, max, START, k).state.continuations == RunFor(w, parent, max, START, m).state.continuations
    decreases max - RunFor(w, parent, max, START, n).state.continuations
  {
    var here := RunFor(w, parent, max, START, n).state;
    if k: nat :| k >= n && RunFor(w, parent, max, START, k).state.continuations != here.continuations {
      RunSplits(w, parent, max, START, n, k - n);
      RunCounts(w, parent, max, here, k - n);
      m := LastCounted(w, parent, max, k);
    } else {
      m := n;
    }
  }

  ghost predicate NeverStops(w: World, parent: string, max: nat) {
    forall n: nat :: RunFor(w, parent, max, START, n).Go?
  }

  lemma EndlessCloses(w: World, parent: string, max: nat) returns (m: nat)
    requires NeverStops(w, parent, max)
    ensures ClosesForever(w, parent, max, m)
  {
    m := LastCounted(w, parent, max, 0);
    var s := RunFor(w, parent, max, START, m).state;
    RunCounts(w, parent, max, START, m);
    forall k: nat ensures RunFor(w, parent, max, s, k).Go? && RunFor(w, parent, max, s, k).state.continuations == s.continuations {
      RunSplits(w, parent, max, START, m, k);
    }
    forall t: nat | t >= m ensures ClosesOnly(w, s.delivered, t) { UncountedRuns(w, parent, max, s, t - m); }
  }

  lemma ClosingIsEndless(w: World, parent: string, max: nat, m: nat, n: nat)
    requires ClosesForever(w, parent, max, m)
    ensures RunFor(w, parent, max, START, n).Go?
  {
    RunCounts(w, parent, max, START, m);
    if n >= m {
      RunSplits(w, parent, max, START, m, n - m);
      ClosingRuns(w, parent, max, RunFor(w, parent, max, START, m).state, n - m);
    } else {
      RunSplits(w, parent, max, START, n, m - n);
    }
  }

  /** The loop never stops exactly if from some turn on it only closes, again and again, children
      that were delivered before and have reopened. */
  lemma NeverStopsExactly(w: World, parent: string, max: nat)
    ensures NeverStops(w, parent, max) <==> exists m: nat :: ClosesForever(w, parent, max, m)
  {
    if NeverStops(w, parent, max) { var m := EndlessCloses(w, parent, max); }
    if m: nat :| ClosesForever(w, parent, max, m) {
      forall n: nat ensures RunFor(w, parent, max, START, n).Go? { ClosingIsEndless(w, parent, max, m, n); }
    }
  }

  /** A child that is reported closed every turn and found open again in the next. */
  function Reopening(): World {
    World(
      (t: nat) => Succeeded,
      (t: nat) => Some(map["c" := Open]),
      (t: nat) => RawReceipt(2, "ready", "p", Some([RawChild(Some("c"), "open", "ready", "terminal-observed", "complete-open")])),
      (t: nat) => {"c"},
      (t: nat) => true,
      (t: nat) => true,
      (t: nat) => true)
  }

  /** Such a world exists for every continuation limit but zero. */
  lemma ReopeningNeverStops(max: nat)
    requires max > 0
    ensures !NeverReopens(Reopening()) && NeverStops(Reopening(), "p", max)
  {
    var w := Reopening();
    assert ListedAt(w, "c", 0) && "c" in w.closes(0) && "c" in OpenAt(w, 1);
    var unseen := w.rows(0).value.Keys - START.delivered;
    assert unseen == {"c"};
    var children := w.receipt(0).children.value;
    assert children[0].attempt == Some("c") && AttemptsOf(children) == {"c"};
    OneTurn(w, "p", max, START);
    forall t: nat ensures ClosesOnly(w, {"c"}, t) { assert OpenAt(w, t) == {"c"}; }
    assert ClosesForever(w, "p", max, 1);
    NeverStopsExactly(w, "p", max);
  }
}
