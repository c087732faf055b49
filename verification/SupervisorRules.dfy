/** How a supervisor's turn ends, told in what it read: exit codes, receipts and what is put to the model. */
module SupervisorRules {
  import opened Prelude
  import opened Supervisor

  /* ---- Receipts ---- */

  predicate EntryHolds(c: RawChild, attempts: set<Attempt>) {
    && c.attempt.Some? && c.attempt.value in attempts
    && (c.status == "open" || c.status == "running" || c.status == "done") && (c.readiness == "ready" || c.readiness == "pending")
    && (c.reason == "registry-closed" || c.reason == "terminal-observed" || c.reason == "process-alive" || c.reason == "process-unverifiable")
    && (c.action == "complete-open" || c.action == "inspect-done-failure" || c.action == "advance-completed")
  }

  /** Schema 2, of this parent, ready or timed out, with exactly one known entry for each child asked for. */
  predicate ReceiptHolds(raw: RawReceipt, parent: string, attempts: set<Attempt>) {
    && raw.RawReceipt? && raw.schema == 2 && (raw.state == "ready" || raw.state == "timeout") && raw.parent == parent && raw.children.Some?
    && var rows := raw.children.value;
       && (forall i :: 0 <= i < |rows| ==> EntryHolds(rows[i], attempts))
       && (forall i, j :: 0 <= i < j < |rows| ==> rows[i].attempt != rows[j].attempt)
       && forall a :: a in attempts ==> exists i :: 0 <= i < |rows| && rows[i].attempt == Some(a)
  }

  lemma ReceiptExactly(raw: RawReceipt, parent: string, attempts: set<Attempt>)
    ensures Typed(raw, parent, attempts).Some? <==> ReceiptHolds(raw, parent, attempts)
    ensures Typed(raw, parent, attempts).Some? ==>
              (raw.RawReceipt? && raw.children.Some? && Typed(raw, parent, attempts) == Some(Receipt(raw.state, parent, raw.children.value)))
  {
    if raw.RawReceipt? && raw.children.Some? {
      var rows := raw.children.value;
      forall c ensures ChildFine(c, attempts) <==> EntryHolds(c, attempts) {}
      if ReceiptHolds(raw, parent, attempts) { EntriesCover(rows, attempts); }
      if ReceiptFine(raw, parent, attempts) { SetCovers(rows, attempts); }
    }
  }

  lemma EntriesCover(rows: seq<RawChild>, attempts: set<Attempt>)
    requires forall i :: 0 <= i < |rows| ==> EntryHolds(rows[i], attempts)
    requires forall a :: a in attempts ==> exists i :: 0 <= i < |rows| && rows[i].attempt == Some(a)
    ensures AttemptsOf(rows) == attempts
  {
    forall a | a in attempts ensures a in AttemptsOf(rows) { var i :| 0 <= i < |rows| && rows[i].attempt == Some(a); }
  }

  lemma SetCovers(rows: seq<RawChild>, attempts: set<Attempt>)
    requires AttemptsOf(rows) == attempts
    ensures forall a :: a in attempts ==> exists i :: 0 <= i < |rows| && rows[i].attempt == Some(a)
  {
    forall a | a in attempts ensures exists i :: 0 <= i < |rows| && rows[i].attempt == Some(a) {
      assert a in AttemptsOf(rows);
      var i :| 0 <= i < |rows| && rows[i].attempt.Some? && rows[i].attempt.value == a;
      assert rows[i].attempt == Some(a);
    }
  }

  /* ---- Turns ---- */

  /** The child was read as open or running. */
  predicate LeftOpen(w: World, t: nat, a: Attempt) {
    w.rows(t).Some? && a in w.rows(t).value && (w.rows(t).value[a] == Open || w.rows(t).value[a] == Running)
  }

  lemma OpenIs(w: World, t: nat, a: Attempt)
    ensures a in OpenAt(w, t) <==> LeftOpen(w, t, a)
  {
  }

  /** Every child that was read has been delivered, and none is left open. */
  ghost predicate NothingLeft(w: World, s: Loop) {
    && w.turn(s.turn) == Succeeded && w.rows(s.turn).Some?
    && forall a :: a in w.rows(s.turn).value ==> a in s.delivered && !LeftOpen(w, s.turn, a)
  }

  /** A registry row the receipts have not handed over yet. */
  ghost predicate SomethingNew(w: World, s: Loop) {
    && w.turn(s.turn) == Succeeded && w.rows(s.turn).Some?
    && exists a :: a in w.rows(s.turn).value && a !in s.delivered
  }

  ghost predicate OnlyOpenLeft(w: World, s: Loop) {
    && w.turn(s.turn) == Succeeded && w.rows(s.turn).Some?
    && (forall a :: a in w.rows(s.turn).value ==> a in s.delivered) && exists a :: LeftOpen(w, s.turn, a)
  }

  lemma KeysAre(w: World, s: Loop)
    requires w.rows(s.turn).Some?
    ensures w.rows(s.turn).value.Keys - s.delivered == {} <==> forall a :: a in w.rows(s.turn).value ==> a in s.delivered
    ensures OpenAt(w, s.turn) == {} <==> forall a :: !LeftOpen(w, s.turn, a)
  {
    if w.rows(s.turn).value.Keys - s.delivered == {} {
      forall a | a in w.rows(s.turn).value ensures a in s.delivered { assert a !in w.rows(s.turn).value.Keys - s.delivered; }
    }
    forall a ensures a in OpenAt(w, s.turn) <==> LeftOpen(w, s.turn, a) { OpenIs(w, s.turn, a); }
  }

  /** Exit 0 is given for nothing but a passing end of a turn that left nothing; a failed turn keeps
      its own code, or 3 for none; whatever cannot be settled, read or finished gives 70. */
  lemma ExitCodes(w: World, parent: string, max: nat, s: Loop, code: int)
    requires Turn(w, parent, max, s) == Stop(code)
    ensures code == 0 <==> NothingLeft(w, s) && w.settles(s.turn) && w.passes(s.turn)
    ensures w.turn(s.turn) == TurnRaised ==> code == 70
    ensures w.turn(s.turn).FailedWith? && !w.settles(s.turn) ==> code == 70
    ensures w.turn(s.turn).FailedWith? && w.settles(s.turn) ==> code == if w.turn(s.turn).code == 0 then 3 else w.turn(s.turn).code
    ensures w.turn(s.turn) == Succeeded && !NothingLeft(w, s) ==> code == 70
    ensures NothingLeft(w, s) && !w.settles(s.turn) ==> code == 70
    ensures NothingLeft(w, s) && w.settles(s.turn) && !w.passes(s.turn) ==> code == 3
  {
    if w.rows(s.turn).Some? { KeysAre(w, s); }
  }

  /** The loop goes on after a turn exactly if it can hand over a good receipt for the children not
      handed over before, or has closed every open one and read again, or puts to the model open ones
      it has not put to it in this combination; both within the limit. */
  lemma GoesOnExactly(w: World, parent: string, max: nat, s: Loop)
    ensures Turn(w, parent, max, s).Go? <==>
            || (SomethingNew(w, s) && s.continuations < max
                && ReceiptHolds(w.receipt(s.turn), parent, w.rows(s.turn).value.Keys - s.delivered))
            || (OnlyOpenLeft(w, s) &&
                var left := OpenAt(w, s.turn) - w.closes(s.turn);
                if left == {} then w.reread(s.turn) else left !in s.remediated && s.continuations < max)
  {
    if w.rows(s.turn).Some? {
      KeysAre(w, s);
      ReceiptExactly(w.receipt(s.turn), parent, w.rows(s.turn).value.Keys - s.delivered);
    }
  }

  /** What the next turn starts from. */
  lemma NextTurn(w: World, parent: string, max: nat, s: Loop, next: Loop)
    requires Turn(w, parent, max, s) == Go(next)
    ensures next.turn == s.turn + 1
    ensures SomethingNew(w, s) ==>
              var added := w.rows(s.turn).value.Keys - s.delivered;
              && next.delivered == s.delivered + added && next.continuations == s.continuations + 1 && next.remediated == s.remediated
              && |next.batches| == |s.batches| + 1 && next.batches[..|s.batches|] == s.batches
              && next.batches[|s.batches|].attempts == added && w.receipt(s.turn).RawReceipt?
              && next.batches[|s.batches|].receipt.parent == parent && next.batches[|s.batches|].receipt.state == w.receipt(s.turn).state
              && Some(next.batches[|s.batches|].receipt.children) == w.receipt(s.turn).children
    ensures OnlyOpenLeft(w, s) ==>
              var left := OpenAt(w, s.turn) - w.closes(s.turn);
              && next.delivered == s.delivered && next.batches == s.batches
              && next.continuations == s.continuations + (if left == {} then 0 else 1)
              && next.remediated == (if left == {} then s.remediated else s.remediated + {left})
  {
    if w.rows(s.turn).Some? {
      KeysAre(w, s);
      ReceiptExactly(w.receipt(s.turn), parent, w.rows(s.turn).value.Keys - s.delivered);
    }
  }
}
