/** Runs of completion calls, crashes, and the rest of the world closing and adding registry rows. */
module MarkerRuns {
  import opened Prelude
  import opened MarkerModel
  import opened MarkerInvariant
  import opened MarkerCalls

  /** `CrashIn` stops after the first `kept` writes of the call. */
  datatype Event =
    | Completes(call: Call)
    | CrashIn(call: Call, kept: nat)
    | AddRow(row: Row)
    | CloseRow(index: nat, note: string, failure: Option<string>)

  function Step(d: Disk, route: Route, e: Event): Disk {
    match e
    case Completes(c) => ApplyAll(d, Complete(d, route, c).writes)
    case CrashIn(c, kept) =>
      var writes := Complete(d, route, c).writes;
      ApplyAll(d, if kept <= |writes| then writes[..kept] else writes)
    case AddRow(row) => d.(rows := d.rows + [row])
    case CloseRow(index, note, failure) =>
      if index < |d.rows| && d.rows[index].status in {Open, Running} then
        d.(rows := d.rows[index := d.rows[index].(status := Done, note := Some(note), failure := failure)])
      else d
  }

  function Run(d: Disk, route: Route, events: seq<Event>): Disk
    decreases |events|
  {
    if events == [] then d else Run(Step(d, route, events[0]), route, events[1..])
  }

  const EMPTY := Disk(map[], [])

  lemma EmptyInv()
    ensures Inv(EMPTY)
  {
    forall node, n ensures HistoryFine(EMPTY, node, n) {}
    forall node ensures CanonicalFine(EMPTY, node) && NodeLinkFine(EMPTY, node) {}
    forall node, safe ensures LinkFine(EMPTY, node, safe) {}
  }

  /* ---- Steps ---- */

  predicate SameIdentity(a: Row, b: Row) {
    a.(status := b.status, note := b.note, marker := b.marker, failure := b.failure) == b
  }

  /** Rows are never dropped, never change identity, and stay as they are once marked. */
  predicate RowsGrow(before: seq<Row>, after: seq<Row>) {
    && |before| <= |after|
    && forall i :: 0 <= i < |before| ==> SameIdentity(before[i], after[i]) && (Marked(before[i]) ==> after[i] == before[i])
  }

  lemma SameFilesInv(d: Disk, e: Disk)
    requires Inv(d) && e.files == d.files
    ensures Inv(e)
  {
    forall node, n ensures HistoryFine(e, node, n) { assert HistoryFine(d, node, n); }
    forall node ensures CanonicalFine(e, node) { assert CanonicalFine(d, node); }
    forall node ensures NodeLinkFine(e, node) { assert NodeLinkFine(d, node); }
    forall node, safe ensures LinkFine(e, node, safe) { assert LinkFine(d, node, safe); }
  }

  lemma {:induction false} OnlyRowsOfPrefix(d: Disk, writes: seq<Write>, k: nat)
    requires k <= |writes| && forall i :: 0 <= i < |writes| - 1 ==> !writes[i].EditRow?
    ensures ApplyAll(d, writes[..k]).rows == d.rows || ApplyAll(d, writes[..k]).rows == ApplyAll(d, writes).rows
    decreases |writes|
  {
    if k == |writes| {
      assert writes[..k] == writes;
    } else if k > 0 {
      OnlyRowsOfPrefix(Apply(d, writes[0]), writes[1..], k - 1);
      assert writes[..k][1..] == writes[1..][..k - 1];
    }
  }

  predicate NoEdits(writes: seq<Write>) {
    forall i :: 0 <= i < |writes| ==> !writes[i].EditRow?
  }

  lemma MarkerNoEdits(d: Disk, route: Route, node: NodeInfo, e: Evidence, axes: Axes)
    ensures NoEdits(WriteMarker(d, route, node, e, axes).writes)
  {
  }

  lemma LinkNoEdits(d: Disk, route: Route, node: NodeId, attempt: Attempt, m: Marker)
    ensures NoEdits(LinkWrites(d, route, node, attempt, m).writes)
  {
  }

  lemma PublishNoEdits(d: Disk, route: Route, node: NodeInfo, e: Evidence, attempt: Option<Attempt>, meta: Option<Meta>, needLink: bool)
    ensures NoEdits(Publish(d, route, node, e, attempt, meta, needLink).writes)
  {
    if MarkerAxes(node, attempt, meta).Ok? {
      var axes := MarkerAxes(node, attempt, meta).value;
      var w := WriteMarker(d, route, node, e, axes);
      MarkerNoEdits(d, route, node, e, axes);
      if Named(attempt) {
        var path := AttemptLink(node.id, SafeName(attempt.value));
        if path in d.files {
          var found := LinkedMarker(d, route, node, e, attempt.value, axes, d.files[path]);
          if found.Ok? { LinkNoEdits(d, route, node.id, attempt.value, found.value); }
        } else if w.result.Ok? {
          LinkNoEdits(ApplyAll(d, w.writes), route, node.id, attempt.value, w.result.value);
        }
      }
    }
  }

  /** The registry edit is the last write of a call. */
  lemma EditComesLast(d: Disk, route: Route, c: Call)
    ensures var w := Complete(d, route, c).writes; forall i :: 0 <= i < |w| - 1 ==> !w[i].EditRow?
  {
    PublishNoEdits(d, route, c.node, c.evidence, c.attempt, c.explicit, false);
    if c.registry && Named(c.attempt) && c.writable && RowOf(d.rows, c.attempt.value, 0) < |d.rows| {
      var r := d.rows[RowOf(d.rows, c.attempt.value, 0)];
      PublishNoEdits(d, route, c.node, c.evidence, c.attempt, Some(r.meta), r.status == Done && !MarkerEligible(r));
    }
  }

  lemma CompleteGrowsRows(d: Disk, route: Route, c: Call, after: seq<Row>)
    requires OnlyItsRow(d.rows, after, c.attempt)
    ensures RowsGrow(d.rows, after)
  {
  }

  lemma StepInv(d: Disk, route: Route, e: Event)
    requires Inv(d)
    ensures Inv(Step(d, route, e)) && Grown(d, Step(d, route, e)) && RowsGrow(d.rows, Step(d, route, e).rows)
  {
    match e
    case Completes(c) =>
      var writes := Complete(d, route, c).writes;
      CompleteLegal(d, route, c);
      CrashInv(d, writes, |writes|);
      assert writes[..|writes|] == writes;
    case CrashIn(c, kept) =>
      var writes := Complete(d, route, c).writes;
      var k := if kept <= |writes| then kept else |writes|;
      CompleteLegal(d, route, c);
      CrashInv(d, writes, k);
      EditComesLast(d, route, c);
      OnlyRowsOfPrefix(d, writes, k);
      assert writes[..|writes|] == writes;
    case AddRow(row) =>
      SameFilesInv(d, Step(d, route, e));
    case CloseRow(index, note, failure) =>
      SameFilesInv(d, Step(d, route, e));
  }

  lemma {:induction false} RunInv(d: Disk, route: Route, events: seq<Event>)
    requires Inv(d)
    ensures Inv(Run(d, route, events)) && Grown(d, Run(d, route, events)) && RowsGrow(d.rows, Run(d, route, events).rows)
    decreases |events|
  {
    if events != [] {
      var e := Step(d, route, events[0]);
      StepInv(d, route, events[0]);
      RunInv(e, route, events[1..]);
      RowsGrowTrans(d.rows, e.rows, Run(d, route, events).rows);
    }
  }

  lemma RowsGrowTrans(a: seq<Row>, b: seq<Row>, c: seq<Row>)
    requires RowsGrow(a, b) && RowsGrow(b, c)
    ensures RowsGrow(a, c)
  {
  }

  /* ---- What every run promises ---- */

  /** However calls crash, the canonical marker is the numbered one, and numbers have no gaps. */
  lemma CanonicalIsNumbered(route: Route, events: seq<Event>, node: NodeId)
    requires Canonical(node) in Run(EMPTY, route, events).files
    ensures var d := Run(EMPTY, route, events);
            && d.files[Canonical(node)].IsMarker?
            && var m := d.files[Canonical(node)].marker;
               Numbered(d, node, m) && forall k :: 1 <= k <= m.sequence ==> History(node, k) in d.files
  {
    EmptyInv();
    RunInv(EMPTY, route, events);
    var d := Run(EMPTY, route, events);
    assert CanonicalFine(d, node);
    assert HistoryFine(d, node, d.files[Canonical(node)].marker.sequence);
  }

  /** History entries and attempt links stay as they were written. */
  lemma HistoryAndLinksAreImmutable(route: Route, events: seq<Event>, later: seq<Event>, path: Path)
    requires path in Run(EMPTY, route, events).files && (path.History? || path.AttemptLink?)
    ensures var d := Run(EMPTY, route, events);
            path in Run(d, route, later).files && Run(d, route, later).files[path] == d.files[path]
  {
    EmptyInv();
    RunInv(EMPTY, route, events);
    RunInv(Run(EMPTY, route, events), route, later);
  }

  /** A number not seen before is larger than every number the node has used. */
  lemma NumbersGrow(d: Disk, route: Route, c: Call)
    requires Inv(d) && Complete(d, route, c).result.Ok?
    ensures var m := Complete(d, route, c).result.value.0;
            History(c.node.id, m.sequence) !in d.files ==> forall n: nat :: History(c.node.id, n) in d.files ==> n < m.sequence
  {
    CompleteLegal(d, route, c);
    NextIsFree(d, c.node.id);
    CompleteNumbered(d, route, c);
  }

  lemma CompleteNumbered(d: Disk, route: Route, c: Call)
    requires Inv(d) && Complete(d, route, c).result.Ok?
    ensures var m := Complete(d, route, c).result.value.0;
            Numbered(d, c.node.id, m) || m.sequence == NextSequence(d, c.node.id)
  {
    var meta := if c.registry then Some(d.rows[RowOf(d.rows, c.attempt.value, 0)].meta) else c.explicit;
    var needLink := c.registry && d.rows[RowOf(d.rows, c.attempt.value, 0)].status == Done && !MarkerEligible(d.rows[RowOf(d.rows, c.attempt.value, 0)]);
    PublishNumbered(d, route, c.node, c.evidence, c.attempt, meta, needLink);
  }

  lemma PublishNumbered(d: Disk, route: Route, node: NodeInfo, e: Evidence, attempt: Option<Attempt>, meta: Option<Meta>, needLink: bool)
    requires Inv(d) && Publish(d, route, node, e, attempt, meta, needLink).result.Ok?
    ensures var m := Publish(d, route, node, e, attempt, meta, needLink).result.value;
            Numbered(d, node.id, m) || m.sequence == NextSequence(d, node.id)
  {
    var axes := MarkerAxes(node, attempt, meta).value;
    if Named(attempt) && AttemptLink(node.id, SafeName(attempt.value)) in d.files {
      AxesName(node, attempt, meta);
      LinkedAgain(d, route, node, e, attempt.value, axes);
    } else {
      assert CanonicalFine(d, node.id);
    }
  }

  /** A call that names a linked attempt with other evidence is refused and writes nothing. */
  lemma OtherDigestRefused(d: Disk, route: Route, c: Call, l: Link)
    requires Inv(d) && Named(c.attempt) && AttemptLink(c.node.id, SafeName(c.attempt.value)) in d.files
    requires d.files[AttemptLink(c.node.id, SafeName(c.attempt.value))] == IsLink(l) && l.digest != c.evidence.digest
    ensures Complete(d, route, c).result.Err? && Complete(d, route, c).writes == []
  {
  }

  /* ---- Retries ---- */

  /** Where the identity of a call comes from. */
  function MetaOf(d: Disk, c: Call): Option<Meta> {
    if !c.registry then c.explicit
    else if c.attempt.Some? && RowOf(d.rows, c.attempt.value, 0) < |d.rows| then Some(d.rows[RowOf(d.rows, c.attempt.value, 0)].meta)
    else None
  }

  /** The facts a successful call leaves behind. */
  predicate Completed(d: Disk, route: Route, c: Call, m: Marker) {
    && Named(c.attempt) && MarkerAxes(c.node, c.attempt, MetaOf(d, c)).Ok?
    && Linked(d, route, c.node.id, c.attempt.value, m)
    && Answers(m, route, c.node, c.evidence, MarkerAxes(c.node, c.attempt, MetaOf(d, c)).value)
    && (if !c.registry then c.explicit.Some?
        else
          c.writable && var k := RowOf(d.rows, c.attempt.value, 0);
          k < |d.rows| && Marked(d.rows[k]) && RowError(route, c, d.rows[k]).None?)
  }

  lemma {:induction false} SameRowFound(before: seq<Row>, after: seq<Row>, attempt: Attempt, from: nat)
    requires RowsGrow(before, after) && from <= |before| && RowOf(before, attempt, from) < |before|
    ensures RowOf(after, attempt, from) == RowOf(before, attempt, from)
    decreases |before| - from
  {
    assert SameIdentity(before[from], after[from]);
    if RowOf(before, attempt, from) != from { SameRowFound(before, after, attempt, from + 1); }
  }

  lemma CompletedStays(d: Disk, e: Disk, route: Route, c: Call, m: Marker)
    requires Completed(d, route, c, m) && Grown(d, e) && RowsGrow(d.rows, e.rows)
    ensures Completed(e, route, c, m)
  {
    if c.registry { SameRowFound(d.rows, e.rows, c.attempt.value, 0); }
  }

  lemma MarkedAfterSuccess(d: Disk, route: Route, c: Call, k: nat)
    requires Inv(d) && k < |d.rows| && CompleteRow(d, route, c, k).result.Ok?
    ensures var after := ApplyAll(d, CompleteRow(d, route, c, k).writes).rows;
            |after| == |d.rows| && Marked(after[k]) && SameRow(d.rows[k], after[k])
  {
    var r := d.rows[k];
    var closed := r.status == Done && !MarkerEligible(r);
    var o := Publish(d, route, c.node, c.evidence, c.attempt, Some(r.meta), closed);
    PublishLegal(d, route, c.node, c.evidence, c.attempt, Some(r.meta), closed);
    if !closed { EditLegal(d, o.writes, k, ClosedRow(r, History(c.node.id, o.result.value.sequence))); }
  }

  /** The row of a successful call carries the mark afterwards and is still the first of its attempt. */
  lemma RowAfterSuccess(d: Disk, route: Route, c: Call, k: nat, after: seq<Row>)
    requires Inv(d) && c.registry && c.writable && Named(c.attempt) && k == RowOf(d.rows, c.attempt.value, 0) < |d.rows|
    requires CompleteRow(d, route, c, k).result.Ok? && after == ApplyAll(d, CompleteRow(d, route, c, k).writes).rows
    ensures RowOf(after, c.attempt.value, 0) == k && |after| == |d.rows|
    ensures Marked(after[k]) && SameRow(d.rows[k], after[k])
  {
    MarkedAfterSuccess(d, route, c, k);
    CompleteRowLegal(d, route, c, k);
    CompleteGrowsRows(d, route, c, after);
    SameRowFound(d.rows, after, c.attempt.value, 0);
  }

  lemma LinkAfterSuccess(d: Disk, route: Route, c: Call, k: nat)
    requires Inv(d) && Named(c.attempt) && k < |d.rows| && CompleteRow(d, route, c, k).result.Ok?
    ensures var after := ApplyAll(d, CompleteRow(d, route, c, k).writes);
            var m := CompleteRow(d, route, c, k).result.value.0;
            && MarkerAxes(c.node, c.attempt, Some(d.rows[k].meta)).Ok?
            && Linked(after, route, c.node.id, c.attempt.value, m)
            && Answers(m, route, c.node, c.evidence, MarkerAxes(c.node, c.attempt, Some(d.rows[k].meta)).value)
  {
    var r := d.rows[k];
    var closed := r.status == Done && !MarkerEligible(r);
    var o := Publish(d, route, c.node, c.evidence, c.attempt, Some(r.meta), closed);
    PublishLegal(d, route, c.node, c.evidence, c.attempt, Some(r.meta), closed);
    if !closed {
      var edit := [EditRow(k, ClosedRow(r, History(c.node.id, o.result.value.sequence)))];
      ApplyAllJoin(d, o.writes, edit);
      ApplyOne(ApplyAll(d, o.writes), edit);
    }
  }

  lemma SuccessCompletes(d: Disk, route: Route, c: Call)
    requires Inv(d) && Named(c.attempt) && Complete(d, route, c).result.Ok?
    ensures Completed(ApplyAll(d, Complete(d, route, c).writes), route, c, Complete(d, route, c).result.value.0)
  {
    if c.registry {
      var k := RowOf(d.rows, c.attempt.value, 0);
      RowAfterSuccess(d, route, c, k, ApplyAll(d, CompleteRow(d, route, c, k).writes).rows);
      LinkAfterSuccess(d, route, c, k);
    } else {
      PublishLegal(d, route, c.node, c.evidence, c.attempt, c.explicit, false);
    }
  }

  lemma CompletedAgain(d: Disk, route: Route, c: Call, m: Marker)
    requires Inv(d) && Completed(d, route, c, m)
    ensures var o := Complete(d, route, c);
            && (o.result.Ok? <==> MarkerAxes(c.node, c.attempt, MetaOf(d, c)).value.chain.None? && m.evidence.path == c.evidence.path)
            && (o.result.Ok? ==> o.result.value == (m, if c.registry then AlreadyClosed else Unregistered))
            && (o.result.Ok? ==> forall i :: 0 <= i < |o.writes| ==> o.writes[i].Replace? && o.writes[i].path.NodeLink?)
  {
    var axes := MarkerAxes(c.node, c.attempt, MetaOf(d, c)).value;
    PublishAgain(d, route, c.node, c.evidence, c.attempt.value, MetaOf(d, c), c.registry, axes, m);
  }

  /** A retry at any later time gives back the same marker and closes nothing again, exactly if the
      attempt is no owner chain and the marker was made for the evidence file the call names. */
  lemma RetryGivesSameMarker(d: Disk, route: Route, c: Call, later: seq<Event>)
    requires Inv(d) && Named(c.attempt) && Complete(d, route, c).result.Ok?
    ensures var m := Complete(d, route, c).result.value.0;
            var now := Run(ApplyAll(d, Complete(d, route, c).writes), route, later);
            var again := Complete(now, route, c);
            && MarkerAxes(c.node, c.attempt, MetaOf(now, c)).Ok?
            && (again.result.Ok? <==>
                  MarkerAxes(c.node, c.attempt, MetaOf(now, c)).value.chain.None? && m.evidence.path == c.evidence.path)
            && (again.result.Ok? ==>
                  && again.result.value == (m, if c.registry then AlreadyClosed else Unregistered)
                  && ApplyAll(now, again.writes).rows == now.rows)
  {
    var after := ApplyAll(d, Complete(d, route, c).writes);
    assert Step(d, route, Completes(c)) == after;
    StepInv(d, route, Completes(c));
    SuccessCompletes(d, route, c);
    RunInv(after, route, later);
    var now := Run(after, route, later);
    var m := Complete(d, route, c).result.value.0;
    CompletedStays(after, now, route, c, m);
    CompletedAgain(now, route, c, m);
    var again := Complete(now, route, c);
    if again.result.Ok? { LinkWritesKeepRows(now, again.writes); }
  }

  /** A success leaves the link of its attempt behind, for the evidence it named. */
  lemma SuccessLinks(d: Disk, route: Route, c: Call)
    requires Inv(d) && Named(c.attempt) && Complete(d, route, c).result.Ok?
    ensures var after := Step(d, route, Completes(c));
            var m := Complete(d, route, c).result.value.0;
            Inv(after) && Grown(d, after) && Linked(after, route, c.node.id, c.attempt.value, m) && m.evidence.digest == c.evidence.digest
  {
    StepInv(d, route, Completes(c));
    SuccessCompletes(d, route, c);
  }

  lemma LinkIsUnique(d: Disk, route: Route, node: NodeId, a: Attempt, b: Attempt, m: Marker, n: Marker)
    requires Linked(d, route, node, a, m) && Linked(d, route, node, b, n) && SafeName(a) == SafeName(b)
    ensures a == b && m == n
  {
    assert LinkFor(route, node, a, m) == LinkFor(route, node, b, n);
  }

  /** Over whole runs, any two successful calls for one link file are calls for one attempt, were
      given evidence of one digest, and answered with one marker. */
  lemma LinkedDigestIsFinal(route: Route, events: seq<Event>, c: Call, later: seq<Event>, again: Call)
    requires Named(c.attempt) && Named(again.attempt) && again.node.id == c.node.id
    requires SafeName(again.attempt.value) == SafeName(c.attempt.value)
    requires var d := Run(EMPTY, route, events);
             && Complete(d, route, c).result.Ok?
             && Complete(Run(Step(d, route, Completes(c)), route, later), route, again).result.Ok?
    ensures again.attempt == c.attempt && again.evidence.digest == c.evidence.digest
    ensures var d := Run(EMPTY, route, events);
            Complete(Run(Step(d, route, Completes(c)), route, later), route, again).result.value.0 == Complete(d, route, c).result.value.0
  {
    var d := Run(EMPTY, route, events);
    EmptyInv();
    RunInv(EMPTY, route, events);
    SuccessLinks(d, route, c);
    var after := Step(d, route, Completes(c));
    RunInv(after, route, later);
    var now := Run(after, route, later);
    SuccessLinks(now, route, again);
    var m, n := Complete(d, route, c).result.value.0, Complete(now, route, again).result.value.0;
    var end := Step(now, route, Completes(again));
    assert Linked(end, route, c.node.id, c.attempt.value, m);
    LinkIsUnique(end, route, c.node.id, c.attempt.value, again.attempt.value, m, n);
  }

  lemma {:induction false} LinkWritesKeepRows(d: Disk, writes: seq<Write>)
    requires forall i :: 0 <= i < |writes| ==> writes[i].Replace?
    ensures ApplyAll(d, writes).rows == d.rows
    decreases |writes|
  {
    if writes != [] { LinkWritesKeepRows(Apply(d, writes[0]), writes[1..]); }
  }

  /* ---- The registry ---- */

  /** A completion edits no row but the first of its attempt, and a row it has marked is never edited
      again by anything; so each row is edited by completions at most once. */
  lemma MarkedRowsAreFinal(d: Disk, route: Route, events: seq<Event>, i: nat)
    requires Inv(d) && i < |d.rows| && Marked(d.rows[i])
    ensures i < |Run(d, route, events).rows| && Run(d, route, events).rows[i] == d.rows[i]
  {
    RunInv(d, route, events);
  }

  lemma CompletionEditsOwnRow(d: Disk, route: Route, c: Call, kept: nat, i: nat)
    requires Inv(d) && i < |d.rows|
    ensures var after := Step(d, route, CrashIn(c, kept)).rows;
            && |after| == |d.rows|
            && (after[i] != d.rows[i] ==>
                  && c.attempt.Some? && i == RowOf(d.rows, c.attempt.value, 0)
                  && !Marked(d.rows[i]) && Marked(after[i]) && SameRow(d.rows[i], after[i]))
  {
    var writes := Complete(d, route, c).writes;
    CompleteLegal(d, route, c);
    EditComesLast(d, route, c);
    OnlyRowsOfPrefix(d, writes, if kept <= |writes| then kept else |writes|);
    assert writes[..|writes|] == writes;
  }
}
