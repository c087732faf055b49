/** Which completions are accepted and what they leave behind, told in the fields of row, call and marker. */
module MarkerRules {
  import opened Prelude
  import opened MarkerModel
  import opened MarkerInvariant
  import opened MarkerCalls
  import opened MarkerRuns
  import opened MarkerRetry

  /* ---- The row of a call ---- */

  /** The first well-formed row that names the attempt. */
  predicate FirstRow(rows: seq<Row>, attempt: Attempt, k: nat) {
    && k < |rows| && rows[k].wellFormed && rows[k].attempt == Some(attempt)
    && forall i :: 0 <= i < k ==> !(rows[i].wellFormed && rows[i].attempt == Some(attempt))
  }

  lemma RowOfIs(rows: seq<Row>, attempt: Attempt, k: nat)
    requires k < |rows|
    ensures RowOf(rows, attempt, 0) == k <==> FirstRow(rows, attempt, k)
  {
  }

  lemma NoRowIs(rows: seq<Row>, attempt: Attempt)
    ensures RowOf(rows, attempt, 0) == |rows| <==> forall k :: !FirstRow(rows, attempt, k)
  {
    var k := RowOf(rows, attempt, 0);
    if k < |rows| { assert FirstRow(rows, attempt, k); }
  }

  predicate OnRoute(route: Route, c: Call, r: Row) {
    r.routeId == route.routeId && r.routeHash == route.routeHash && r.routeNode == c.node.id
  }

  /** The row belongs to exactly this route and node, is no sub-session, and says what the caller says. */
  predicate OfThisNode(route: Route, c: Call, r: Row) {
    && r.meta.valid && !r.subsession && OnRoute(route, c, r)
    && (c.explicit.Some? ==>
          var m := c.explicit.value;
          r.meta.depth == m.depth && r.meta.transport == m.transport && r.meta.surface == m.surface
          && r.meta.registered == m.registered && r.meta.hop == m.hop)
  }

  predicate Passed(r: Row) {
    r.status == Done && r.note == Some("completed-supervisor") && r.failure == Some("pass")
  }

  predicate CompletedBefore(r: Row) {
    r.status == Done && r.note == Some("completed-marker")
  }

  /** What a completion may close: a live row, one a supervisor closed with a passing verdict, or again
      one that carries a completion mark. */
  predicate MayComplete(route: Route, c: Call, r: Row) {
    OfThisNode(route, c, r) && (r.status == Open || r.status == Running || Passed(r) || CompletedBefore(r))
  }

  lemma RowErrorIs(route: Route, c: Call, r: Row)
    ensures RowError(route, c, r).None? <==> MayComplete(route, c, r)
  {
  }

  /** Whatever else the row is, the call fails and writes nothing, neither file nor row. */
  lemma OtherRowRefused(d: Disk, route: Route, c: Call, k: nat)
    requires c.registry && Named(c.attempt) && c.writable && FirstRow(d.rows, c.attempt.value, k) && !MayComplete(route, c, d.rows[k])
    ensures Complete(d, route, c).result.Err? && Complete(d, route, c).writes == []
  {
    RowOfIs(d.rows, c.attempt.value, k);
    RowErrorIs(route, c, d.rows[k]);
  }

  /** Which error, and in which order the rules are looked at. */
  lemma WhyRefused(d: Disk, route: Route, c: Call, k: nat)
    requires c.registry && Named(c.attempt) && c.writable && FirstRow(d.rows, c.attempt.value, k)
    ensures var r, e := d.rows[k], Complete(d, route, c).result;
            && (!r.meta.valid ==> e == Err(RowInvalid))
            && (r.meta.valid && r.subsession ==> e == Err(Subsession))
            && (r.meta.valid && !r.subsession && !OnRoute(route, c, r) ==> e == Err(RouteMismatch))
            && (r.meta.valid && !r.subsession && OnRoute(route, c, r) && !OfThisNode(route, c, r) ==> e == Err(ExplicitDiffers))
            && (OfThisNode(route, c, r) && r.status == OtherStatus ==> e == Err(RowTerminal))
            && (OfThisNode(route, c, r) && r.status == Done && !Passed(r) && !CompletedBefore(r) ==> e == Err(TerminalWithoutCompletion))
  {
    RowOfIs(d.rows, c.attempt.value, k);
  }

  /** A registry call without an attempt, without a writable registry, or without a row fails, and
      whatever it writes, it touches no row. */
  lemma NoRowRefused(d: Disk, route: Route, c: Call)
    requires c.registry && !(Named(c.attempt) && c.writable && exists k :: FirstRow(d.rows, c.attempt.value, k))
    ensures Complete(d, route, c).result.Err? && NoEdits(Complete(d, route, c).writes)
    ensures !Named(c.attempt) || c.explicit == None ==> Complete(d, route, c).writes == []
  {
    if Named(c.attempt) {
      NoRowIs(d.rows, c.attempt.value);
      PublishNoEdits(d, route, c.node, c.evidence, c.attempt, c.explicit, false);
    }
  }

  /** Without a registry the caller gives attempt and metadata, both or neither. */
  lemma UnregisteredNeedsBoth(d: Disk, route: Route, c: Call)
    requires !c.registry && !(Named(c.attempt) <==> c.explicit.Some?)
    ensures Complete(d, route, c) == Outcome([], Err(if Named(c.attempt) then MissingMetadata else MissingAttempt))
  {
  }

  /** A registry call that succeeds found such a row. */
  lemma SuccessFoundRow(d: Disk, route: Route, c: Call) returns (k: nat)
    requires c.registry && Complete(d, route, c).result.Ok?
    ensures Named(c.attempt) && c.writable && FirstRow(d.rows, c.attempt.value, k) && MayComplete(route, c, d.rows[k])
  {
    CompleteForm(d, route, c);
    k := RowOf(d.rows, c.attempt.value, 0);
    RowOfIs(d.rows, c.attempt.value, k);
    RowErrorIs(route, c, d.rows[k]);
  }

  /** The file-name form of an attempt, letter by letter; beyond ASCII it keeps letters and digits. */
  lemma SafeNameAt(attempt: Attempt, i: nat)
    requires i < |attempt|
    ensures |SafeName(attempt)| == |attempt|
    ensures var c := attempt[i] as int;
            && (48 <= c <= 57 || 65 <= c <= 90 || 97 <= c <= 122 || c == 45 || c == 46 || c == 95 ==> SafeName(attempt)[i] == attempt[i])
            && (c < 128 && !(48 <= c <= 57 || 65 <= c <= 90 || 97 <= c <= 122 || c == 45 || c == 46) ==> SafeName(attempt)[i] == '_')
            && (c >= 128 ==> SafeName(attempt)[i] == if attempt[i] in OTHER_LETTERS then attempt[i] else '_')
  {
  }

  /* ---- What a success leaves behind ---- */

  /** The axes of a marker come from the attempt's metadata; a detached run has none. */
  predicate AxesFrom(node: NodeInfo, attempt: Option<Attempt>, meta: Option<Meta>, a: Axes) {
    if node.detached then
      !Named(attempt) && meta == None && a == Axes(None, None, None, None, false, None, None)
    else if meta == None then
      node.depth == 0 && node.inline && a == Axes(attempt, Some(0), Some("interactive"), Some("inline"), false, None, None)
    else if meta.value.chain.Some? then
      && Named(attempt) && meta.value.chain.value.manifest != ""
      && a == Axes(attempt, Some(node.depth), Some("headless"), Some("inline"), false, Some("inline"), meta.value.chain)
    else
      && meta.value.valid && meta.value.depth == node.depth
      && a.attempt == attempt && a.depth == Some(meta.value.depth) && a.transport == Some(meta.value.transport)
      && a.surface == Some(meta.value.surface) && a.registered == meta.value.registered
      && a.hop == (if meta.value.hop == "" then None else Some(meta.value.hop)) && a.chain == None
  }

  lemma AxesAre(node: NodeInfo, attempt: Option<Attempt>, meta: Option<Meta>, a: Axes)
    ensures MarkerAxes(node, attempt, meta) == Ok(a) <==> AxesFrom(node, attempt, meta, a)
  {
  }

  /** The marker names route, node, gate and evidence of the call, and the attempt's axes. */
  predicate MarkerFor(m: Marker, route: Route, c: Call, a: Axes) {
    && m.route == route && m.node == c.node.id && m.gate == c.node.gate && m.evidence.digest == c.evidence.digest
    && m.axes.attempt == a.attempt && m.axes.depth == a.depth && m.axes.transport == a.transport && m.axes.surface == a.surface
    && m.axes.registered == a.registered && m.axes.hop == a.hop && (a.chain.Some? ==> m.axes.chain == a.chain)
  }

  /** The marker is filed under its number and, for an attempt, linked from the attempt's file. */
  predicate FiledFor(files: map<Path, File>, m: Marker, node: NodeId, attempt: Option<Attempt>) {
    && History(node, m.sequence) in files && files[History(node, m.sequence)] == IsMarker(m)
    && (Named(attempt) ==>
          var path := AttemptLink(node, SafeName(attempt.value));
          && path in files && files[path].IsLink?
          && var l := files[path].link;
             l.routeId == m.route.routeId && l.node == node && l.digest == m.evidence.digest && l.history == History(node, m.sequence)
             && l.axes == Axes(attempt, m.axes.depth, m.axes.transport, m.axes.surface, m.axes.registered, m.axes.hop, None))
  }

  lemma PublishedFor(d: Disk, route: Route, c: Call)
    requires Inv(d) && Published(d, route, c).result.Ok?
    ensures var p := Published(d, route, c);
            && AxesOf(d, c).Some? && AxesFrom(c.node, c.attempt, MetaOf(d, c), AxesOf(d, c).value)
            && MarkerFor(p.result.value, route, c, AxesOf(d, c).value)
            && FiledFor(ApplyAll(d, p.writes).files, p.result.value, c.node.id, c.attempt) && ApplyAll(d, p.writes).rows == d.rows
  {
    PublishLegal(d, route, c.node, c.evidence, c.attempt, MetaOf(d, c), NeedsLink(d, c));
    AxesAre(c.node, c.attempt, MetaOf(d, c), AxesOf(d, c).value);
  }

  /** The row as closed: its status, its note, and the numbered marker; all else stays. */
  predicate ClosedBy(before: Row, after: Row, node: NodeId, sequence: nat) {
    after == before.(status := Done, note := Some("completed-marker"), marker := Some(History(node, sequence)))
  }

  /** A registry call that succeeds answers with a marker for its row's attempt, filed and linked. A row
      completed before stays as it is; any other row is closed with that marker, and no row besides. */
  lemma SuccessLeaves(d: Disk, route: Route, c: Call, k: nat)
    requires Inv(d) && c.registry && Complete(d, route, c).result.Ok? && Named(c.attempt) && FirstRow(d.rows, c.attempt.value, k)
    ensures var (m, status), after := Complete(d, route, c).result.value, ApplyAll(d, Complete(d, route, c).writes);
            && MarkerAxes(c.node, c.attempt, Some(d.rows[k].meta)).Ok?
            && MarkerFor(m, route, c, MarkerAxes(c.node, c.attempt, Some(d.rows[k].meta)).value)
            && FiledFor(after.files, m, c.node.id, c.attempt)
            && status == (if CompletedBefore(d.rows[k]) then AlreadyClosed else if Passed(d.rows[k]) then MarkerAppended else Closed)
            && |after.rows| == |d.rows| && (forall i :: 0 <= i < |d.rows| && i != k ==> after.rows[i] == d.rows[i])
            && (if CompletedBefore(d.rows[k]) then after.rows[k] == d.rows[k] else ClosedBy(d.rows[k], after.rows[k], c.node.id, m.sequence))
  {
    RowOfIs(d.rows, c.attempt.value, k);
    CompleteForm(d, route, c);
    RowErrorIs(route, c, d.rows[k]);
    PublishedFor(d, route, c);
    var p := Published(d, route, c);
    var edit := Edit(d, c, p.result.value);
    ApplyAllJoin(d, p.writes, edit);
    NeedsLinkIs(d, route, c, k);
    if !CompletedBefore(d.rows[k]) { ApplyOne(ApplyAll(d, p.writes), edit); }
  }

  lemma NeedsLinkIs(d: Disk, route: Route, c: Call, k: nat)
    requires c.registry && Named(c.attempt) && FirstRow(d.rows, c.attempt.value, k) && MayComplete(route, c, d.rows[k])
    ensures NeedsLink(d, c) <==> CompletedBefore(d.rows[k])
    ensures MetaOf(d, c) == Some(d.rows[k].meta)
    ensures StatusOf(d, c) == if CompletedBefore(d.rows[k]) then AlreadyClosed else if Passed(d.rows[k]) then MarkerAppended else Closed
  {
    RowOfIs(d.rows, c.attempt.value, k);
  }

  /** The number after the largest one a node has. */
  predicate NextNumber(d: Disk, node: NodeId, n: nat) {
    && n >= 1 && History(node, n) !in d.files && (n == 1 || History(node, n - 1) in d.files)
  }

  lemma NextNumberIs(d: Disk, node: NodeId)
    requires Inv(d)
    ensures NextNumber(d, node, NextSequence(d, node))
  {
    NextIsFree(d, node);
    var top := MaxOf(Sequences(d, node));
    if top != 0 {
      var p :| p in d.files && p.History? && p.node == node && p.sequence == top;
      assert p == History(node, top);
    }
  }

  /** The first completion of an attempt writes the next marker of its node in full, makes it the
      canonical one, links it, and closes the row. */
  lemma FirstCompletion(d: Disk, route: Route, c: Call, k: nat, a: Axes) returns (m: Marker)
    requires Inv(d) && c.registry && c.writable && Named(c.attempt) && FirstRow(d.rows, c.attempt.value, k)
    requires MayComplete(route, c, d.rows[k]) && !CompletedBefore(d.rows[k]) && AxesFrom(c.node, c.attempt, Some(d.rows[k].meta), a)
    requires AttemptLink(c.node.id, SafeName(c.attempt.value)) !in d.files
    requires Canonical(c.node.id) in d.files && d.files[Canonical(c.node.id)].IsMarker? ==>
               d.files[Canonical(c.node.id)].marker.axes.attempt != c.attempt
    ensures NextNumber(d, c.node.id, m.sequence) && m == Marker(route, c.node.id, a, c.node.gate, c.evidence, m.sequence)
    ensures Complete(d, route, c).result == Ok((m, if Passed(d.rows[k]) then MarkerAppended else Closed))
    ensures var after, safe := ApplyAll(d, Complete(d, route, c).writes), SafeName(c.attempt.value);
            var link := IsLink(Link(route.routeId, c.node.id, a.(chain := None), c.evidence.digest, History(c.node.id, m.sequence)));
            && after.files == d.files[History(c.node.id, m.sequence) := IsMarker(m)][Canonical(c.node.id) := IsMarker(m)]
                                     [AttemptLink(c.node.id, safe) := link][NodeLink(c.node.id) := link]
            && |after.rows| == |d.rows| && ClosedBy(d.rows[k], after.rows[k], c.node.id, m.sequence)
  {
    AxesAre(c.node, c.attempt, Some(d.rows[k].meta), a);
    NeedsLinkIs(d, route, c, k);
    RowOfIs(d.rows, c.attempt.value, k);
    RowErrorIs(route, c, d.rows[k]);
    CompleteForm(d, route, c);
    NextNumberIs(d, c.node.id);
    m := FreshMarker(d, route, c, a);
    FreshForm(d, route, c.node, c.evidence, c.attempt, MetaOf(d, c), a);
    SuccessLeaves(d, route, c, k);
    FreshFiles(d, route, c, m, Edit(d, c, m));
  }

  lemma FreshMarker(d: Disk, route: Route, c: Call, a: Axes) returns (m: Marker)
    requires Named(c.attempt) && a.attempt == c.attempt
    requires Canonical(c.node.id) in d.files && d.files[Canonical(c.node.id)].IsMarker? ==>
               d.files[Canonical(c.node.id)].marker.axes.attempt != c.attempt
    ensures m == Marker(route, c.node.id, a, c.node.gate, c.evidence, NextSequence(d, c.node.id))
    ensures WriteMarker(d, route, c.node, c.evidence, a)
            == Outcome([Create(History(c.node.id, m.sequence), IsMarker(m)), Replace(Canonical(c.node.id), IsMarker(m))], Ok(m))
  {
    m := Marker(route, c.node.id, a, c.node.gate, c.evidence, NextSequence(d, c.node.id));
  }

  lemma FreshFiles(d: Disk, route: Route, c: Call, m: Marker, edit: seq<Write>)
    requires Named(c.attempt) && |edit| == 1 && edit[0].EditRow?
    ensures var writes := [Create(History(c.node.id, m.sequence), IsMarker(m)), Replace(Canonical(c.node.id), IsMarker(m))]
                          + LinkPair(route, c.node.id, c.attempt, m) + edit;
            var link := IsLink(LinkFor(route, c.node.id, c.attempt.value, m));
            ApplyAll(d, writes).files == d.files[History(c.node.id, m.sequence) := IsMarker(m)][Canonical(c.node.id) := IsMarker(m)]
                                                [AttemptLink(c.node.id, SafeName(c.attempt.value)) := link][NodeLink(c.node.id) := link]
  {
    var marker := [Create(History(c.node.id, m.sequence), IsMarker(m)), Replace(Canonical(c.node.id), IsMarker(m))];
    var pair := LinkPair(route, c.node.id, c.attempt, m);
    ApplyTwo(d, marker);
    ApplyAllJoin(d, marker, pair);
    ApplyTwo(ApplyAll(d, marker), pair);
    ApplyAllJoin(d, marker + pair, edit);
    ApplyOne(ApplyAll(d, marker + pair), edit);
  }

  /** A call without a registry answers with a marker for the metadata given, and touches no row. */
  lemma UnregisteredLeaves(d: Disk, route: Route, c: Call)
    requires Inv(d) && !c.registry && Complete(d, route, c).result.Ok?
    ensures var (m, status), after := Complete(d, route, c).result.value, ApplyAll(d, Complete(d, route, c).writes);
            && MarkerAxes(c.node, c.attempt, c.explicit).Ok? && MarkerFor(m, route, c, MarkerAxes(c.node, c.attempt, c.explicit).value)
            && FiledFor(after.files, m, c.node.id, c.attempt) && after.rows == d.rows
            && status == (if Named(c.attempt) then Unregistered else NoAttempt)
  {
    CompleteForm(d, route, c);
    PublishedFor(d, route, c);
    assert Published(d, route, c).writes + [] == Published(d, route, c).writes;
  }

  /* ---- Over runs ---- */

  /** The call closed this row: it is of the call's route and node, and of its attempt. */
  predicate ClosedByCall(route: Route, c: Call, before: Row, after: Row) {
    && c.registry && Named(c.attempt) && before.wellFormed && before.attempt == c.attempt
    && OfThisNode(route, c, before) && (before.status == Open || before.status == Running || Passed(before))
    && after.marker.Some? && after.marker.value.History? && ClosedBy(before, after, c.node.id, after.marker.value.sequence)
  }

  lemma UnfitKeepsRows(d: Disk, route: Route, c: Call, kept: nat)
    requires !CallFits(d, route, c)
    ensures ApplyAll(d, Cut(Complete(d, route, c).writes, kept)).rows == d.rows
  {
    PublishNoEdits(d, route, c.node, c.evidence, c.attempt, c.explicit, false);
    assert NoEdits(Complete(d, route, c).writes);
    NoEditsKeepRows(d, Cut(Complete(d, route, c).writes, kept));
  }

  lemma FitClosesRow(d: Disk, route: Route, c: Call, kept: nat, i: nat)
    requires Inv(d) && CallFits(d, route, c) && i < |d.rows|
    ensures var after := ApplyAll(d, Cut(Complete(d, route, c).writes, kept)).rows;
            |after| == |d.rows| && (after[i] != d.rows[i] ==> ClosedByCall(route, c, d.rows[i], after[i]))
  {
    var o, p := Complete(d, route, c), Published(d, route, c);
    CompleteForm(d, route, c);
    CutRows(d, route, c, kept);
    if c.registry && o.result.Ok? {
      var k := RowOf(d.rows, c.attempt.value, 0);
      RowOfIs(d.rows, c.attempt.value, k);
      RowErrorIs(route, c, d.rows[k]);
      SuccessLeaves(d, route, c, k);
    }
    if !c.registry && o.result.Ok? { UnregisteredLeaves(d, route, c); }
  }

  /** Cut short, a call that fits leaves the rows alone or edits them as the whole call does; one that
      fails edits none. */
  lemma CutRows(d: Disk, route: Route, c: Call, kept: nat)
    requires Inv(d) && CallFits(d, route, c)
    ensures var after := ApplyAll(d, Cut(Complete(d, route, c).writes, kept)).rows;
            after == d.rows || (Complete(d, route, c).result.Ok? && after == ApplyAll(d, Complete(d, route, c).writes).rows)
  {
    var writes := Complete(d, route, c).writes;
    EditComesLast(d, route, c);
    OnlyRowsOfPrefix(d, writes, if kept <= |writes| then kept else |writes|);
    assert writes[..|writes|] == writes;
    if Complete(d, route, c).result.Err? { FailedWritesNothing(d, route, c); }
  }

  lemma FailedWritesNothing(d: Disk, route: Route, c: Call)
    requires Inv(d) && CallFits(d, route, c) && Complete(d, route, c).result.Err?
    ensures Complete(d, route, c).writes == []
  {
    PublishLegal(d, route, c.node, c.evidence, c.attempt, MetaOf(d, c), NeedsLink(d, c));
  }

  predicate CallOf(e: Event, c: Call) {
    e == Completes(c) || (e.CrashIn? && e.call == c)
  }

  lemma StepCut(d: Disk, route: Route, e: Event, c: Call) returns (kept: nat)
    requires CallOf(e, c)
    ensures Step(d, route, e) == ApplyAll(d, Cut(Complete(d, route, c).writes, kept))
  {
    var writes := Complete(d, route, c).writes;
    kept := if e.Completes? then |writes| else e.kept;
    assert writes[..|writes|] == writes;
  }

  /** A row turns marked only by a completion of its own route and node, or by whoever else closes rows. */
  predicate TurnsMarked(route: Route, e: Event, i: nat, before: Row, after: Row) {
    || (e.CloseRow? && e.index == i && e.note == "completed-marker" && (before.status == Open || before.status == Running))
    || (e.Completes? && ClosedByCall(route, e.call, before, after))
    || (e.CrashIn? && ClosedByCall(route, e.call, before, after))
  }

  lemma StepMarks(d: Disk, route: Route, e: Event, i: nat)
    requires Inv(d) && i < |d.rows| && i < |Step(d, route, e).rows|
    requires !CompletedBefore(d.rows[i]) && CompletedBefore(Step(d, route, e).rows[i])
    ensures TurnsMarked(route, e, i, d.rows[i], Step(d, route, e).rows[i])
  {
    if e.Completes? || e.CrashIn? {
      var kept := StepCut(d, route, e, e.call);
      if CallFits(d, route, e.call) { FitClosesRow(d, route, e.call, kept, i); } else { UnfitKeepsRows(d, route, e.call, kept); }
    }
  }

  /** Over any run with crashes: a row that is marked at the end and was not at the start was marked by
      one event, and is since then as that event left it. If a completion did it, the row carries the
      route and node of that call. */
  lemma {:induction false} MarkedByItsCall(d: Disk, route: Route, events: seq<Event>, i: nat) returns (j: nat)
    requires Inv(d) && i < |d.rows| && i < |Run(d, route, events).rows|
    requires !CompletedBefore(d.rows[i]) && CompletedBefore(Run(d, route, events).rows[i])
    ensures j < |events| && i < |Run(d, route, events[..j]).rows|
    ensures TurnsMarked(route, events[j], i, Run(d, route, events[..j]).rows[i], Run(d, route, events).rows[i])
    decreases |events|
  {
    var e := Step(d, route, events[0]);
    StepInv(d, route, events[0]);
    if CompletedBefore(e.rows[i]) {
      StepMarks(d, route, events[0], i);
      MarkedRowsAreFinal(e, route, events[1..], i);
      j := 0;
    } else {
      var rest := MarkedByItsCall(e, route, events[1..], i);
      j := rest + 1;
      assert events[..j][0] == events[0] && events[..j][1..] == events[1..][..rest];
    }
  }
}
