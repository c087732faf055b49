/** Retrying a completion call that a crash cut short. */
module MarkerRetry {
  import opened Prelude
  import opened MarkerModel
  import opened MarkerInvariant
  import opened MarkerCalls
  import opened MarkerRuns

  /* ---- A call as a publication and a row edit ---- */

  /** The checks a call passes before it publishes. */
  predicate CallFits(d: Disk, route: Route, c: Call) {
    if !c.registry then (Named(c.attempt) <==> c.explicit.Some?)
    else
      && Named(c.attempt) && c.writable
      && var k := RowOf(d.rows, c.attempt.value, 0); k < |d.rows| && RowError(route, c, d.rows[k]).None?
  }

  /** The row was closed by an earlier completion, so its link must exist. */
  predicate NeedsLink(d: Disk, c: Call) {
    && c.registry && c.attempt.Some?
    && var k := RowOf(d.rows, c.attempt.value, 0); k < |d.rows| && d.rows[k].status == Done && !MarkerEligible(d.rows[k])
  }

  function Published(d: Disk, route: Route, c: Call): Outcome<Marker> {
    Publish(d, route, c.node, c.evidence, c.attempt, MetaOf(d, c), NeedsLink(d, c))
  }

  /** The row edit at the end of a call; none without a registry or where the row is closed already. */
  function Edit(d: Disk, c: Call, m: Marker): seq<Write> {
    if !c.registry || NeedsLink(d, c) || c.attempt.None? || RowOf(d.rows, c.attempt.value, 0) == |d.rows| then []
    else
      var k := RowOf(d.rows, c.attempt.value, 0);
      [EditRow(k, ClosedRow(d.rows[k], History(c.node.id, m.sequence)))]
  }

  function StatusOf(d: Disk, c: Call): Status {
    if !c.registry then (if Named(c.attempt) then Unregistered else NoAttempt)
    else if NeedsLink(d, c) then AlreadyClosed
    else if c.attempt.Some? && RowOf(d.rows, c.attempt.value, 0) < |d.rows| && MarkerEligible(d.rows[RowOf(d.rows, c.attempt.value, 0)]) then
      MarkerAppended
    else Closed
  }

  /** A call succeeds exactly if it fits and its publication does. */
  lemma CompleteForm(d: Disk, route: Route, c: Call)
    ensures var o, p := Complete(d, route, c), Published(d, route, c);
            && (o.result.Ok? <==> CallFits(d, route, c) && p.result.Ok?)
            && (o.result.Ok? ==> o.result.value == (p.result.value, StatusOf(d, c)) && o.writes == p.writes + Edit(d, c, p.result.value))
  {
  }

  lemma SameRowsSame(d: Disk, e: Disk, route: Route, c: Call)
    requires d.rows == e.rows
    ensures CallFits(d, route, c) == CallFits(e, route, c) && NeedsLink(d, c) == NeedsLink(e, c)
    ensures MetaOf(d, c) == MetaOf(e, c) && StatusOf(d, c) == StatusOf(e, c)
  {
  }

  /* ---- One publication, cut short and repeated ---- */

  predicate LinkOn(d: Disk, node: NodeId, attempt: Option<Attempt>) {
    Named(attempt) && AttemptLink(node, SafeName(attempt.value)) in d.files
  }

  /** The canonical marker is one for this evidence and these axes. */
  predicate Reuses(d: Disk, node: NodeId, e: Evidence, axes: Axes) {
    var existing := CanonicalOf(d, node);
    existing.Some? && existing.value.evidence.digest == e.digest && AxesMatch(existing.value.axes, axes)
  }

  /** Where nothing is linked yet, publication writes a marker or finds it, and links it twice. */
  lemma FreshForm(d: Disk, route: Route, node: NodeInfo, e: Evidence, attempt: Option<Attempt>, meta: Option<Meta>, axes: Axes)
    requires Inv(d) && !LinkOn(d, node.id, attempt) && MarkerAxes(node, attempt, meta) == Ok(axes)
    requires WriteMarker(d, route, node, e, axes).result.Ok?
    ensures var o, w := Publish(d, route, node, e, attempt, meta, false), WriteMarker(d, route, node, e, axes);
            && o.result == w.result
            && o.writes == w.writes + LinkPair(route, node.id, attempt, w.result.value)
  {
    if Named(attempt) {
      AxesName(node, attempt, meta);
      FreshLink(d, route, node, e, attempt.value, axes);
      var w := WriteMarker(d, route, node, e, axes);
      if w.writes != [] { ApplyTwo(d, w.writes); }
    }
  }

  function LinkPair(route: Route, node: NodeId, attempt: Option<Attempt>, m: Marker): seq<Write> {
    if !Named(attempt) then []
    else
      var link := IsLink(LinkFor(route, node, attempt.value, m));
      [Create(AttemptLink(node, SafeName(attempt.value)), link), Replace(NodeLink(node), link)]
  }

  /** A canonical marker of this call is found again. */
  lemma WriteAgain(d: Disk, route: Route, node: NodeInfo, e: Evidence, axes: Axes, m: Marker)
    requires CanonicalOf(d, node.id) == Some(m) && Numbered(d, node.id, m) && Answers(m, route, node, e, axes)
    ensures WriteMarker(d, route, node, e, axes) == Outcome([], Ok(m))
  {
  }

  /** What the writes of a marker do, one after the other. */
  lemma MarkerWrites(d: Disk, route: Route, node: NodeInfo, e: Evidence, axes: Axes)
    requires Inv(d) && WriteMarker(d, route, node, e, axes).result.Ok?
    ensures var w := WriteMarker(d, route, node, e, axes);
            var m := w.result.value;
            && Answers(m, route, node, e, axes)
            && w.writes == (if Reuses(d, node.id, e, axes) then [] else [Create(History(node.id, m.sequence), IsMarker(m)), Replace(Canonical(node.id), IsMarker(m))])
            && CanonicalOf(ApplyAll(d, w.writes), node.id) == Some(m) && Numbered(ApplyAll(d, w.writes), node.id, m)
  {
    var w := WriteMarker(d, route, node, e, axes);
    if w.writes != [] { ApplyTwo(d, w.writes); }
  }

  /** A crash between the history entry and the canonical marker leaves the entry behind: the retry
      makes the next one. */
  lemma Orphaned(d: Disk, e: Disk, route: Route, node: NodeInfo, evidence: Evidence, axes: Axes, m: Marker)
    requires !Reuses(d, node.id, evidence, axes) && WriteMarker(d, route, node, evidence, axes).result == Ok(m)
    requires e == Apply(d, Create(History(node.id, m.sequence), IsMarker(m)))
    ensures WriteMarker(e, route, node, evidence, axes).result == Ok(NewMarker(route, node, evidence, axes, m.sequence + 1))
  {
    assert CanonicalOf(e, node.id) == CanonicalOf(d, node.id);
    NextAfter(d, e, node.id, m);
  }

  lemma NextAfter(d: Disk, e: Disk, node: NodeId, m: Marker)
    requires m.sequence == NextSequence(d, node) && e.files == d.files[History(node, m.sequence) := IsMarker(m)]
    ensures NextSequence(e, node) == m.sequence + 1
  {
    assert History(node, m.sequence) in e.files;
    assert m.sequence in Sequences(e, node) by { assert History(node, m.sequence).sequence == m.sequence; }
    forall n | n in Sequences(e, node) ensures n <= m.sequence {
      var p :| p in e.files && p.History? && p.node == node && p.sequence == n;
      if p in d.files { assert n in Sequences(d, node); }
    }
    assert MaxOf(Sequences(e, node)) == m.sequence;
  }

  function Cut(writes: seq<Write>, k: nat): seq<Write> {
    if k <= |writes| then writes[..k] else writes
  }

  lemma CutInv(d: Disk, writes: seq<Write>, k: nat)
    requires Inv(d) && LegalWrites(d, writes)
    ensures Inv(ApplyAll(d, Cut(writes, k))) && Grown(d, ApplyAll(d, Cut(writes, k)))
  {
    CrashInv(d, writes, if k <= |writes| then k else |writes|);
    assert writes[..|writes|] == writes;
  }

  lemma LinkedLater(d: Disk, e: Disk, route: Route, node: NodeId, attempt: Attempt, m: Marker)
    requires Linked(d, route, node, attempt, m) && Grown(d, e)
    ensures Linked(e, route, node, attempt, m)
  {
  }

  /** Behind the marker's own writes: the link is on disk as soon as its write is. */
  lemma LinkAfterPair(d: Disk, route: Route, node: NodeId, attempt: Option<Attempt>, m: Marker, j: nat)
    requires !LinkOn(d, node, attempt) && Numbered(d, node, m) && (Named(attempt) ==> m.axes.attempt == attempt)
    ensures var e := ApplyAll(d, Cut(LinkPair(route, node, attempt, m), j));
            && (LinkOn(e, node, attempt) <==> Named(attempt) && j > 0)
            && (LinkOn(e, node, attempt) ==> Linked(e, route, node, attempt.value, m))
            && CanonicalOf(e, node) == CanonicalOf(d, node) && Numbered(e, node, m)
  {
    var pair := LinkPair(route, node, attempt, m);
    if Named(attempt) {
      if j == 1 { ApplyOne(d, pair[..1]); }
      if j >= 2 { ApplyTwo(d, Cut(pair, j)); }
    }
  }

  /** The disk behind the first `j` writes of a publication that linked nothing before. */
  lemma FreshPrefix(d: Disk, writes: seq<Write>, pair: seq<Write>, j: nat)
    ensures ApplyAll(d, Cut(writes + pair, j)) ==
            if j <= |writes| then ApplyAll(d, Cut(writes, j)) else ApplyAll(ApplyAll(d, writes), Cut(pair, j - |writes|))
  {
    if j <= |writes| {
      assert Cut(writes + pair, j) == Cut(writes, j);
    } else {
      assert Cut(writes + pair, j) == writes + Cut(pair, j - |writes|);
      ApplyAllJoin(d, writes, Cut(pair, j - |writes|));
    }
  }

  /** What a repeated publication answers: refused for good where the link is on disk and cannot be
      repeated, and a new marker where only the history entry got there. */
  ghost predicate RepeatFits(d: Disk, e: Disk, route: Route, node: NodeInfo, evidence: Evidence, attempt: Option<Attempt>, axes: Axes, m: Marker,
                             again: Result<Marker, MarkerError>, orphan: bool)
  {
    && (again.Ok? <==> !LinkOn(e, node.id, attempt) || (axes.chain.None? && m.evidence.path == evidence.path))
    && (again.Ok? ==> again.value == if orphan then NewMarker(route, node, evidence, axes, m.sequence + 1) else m)
    && (orphan ==> !LinkOn(e, node.id, attempt) && Numbered(e, node.id, m))
  }

  lemma RepeatUnlinked(e: Disk, route: Route, node: NodeInfo, evidence: Evidence, attempt: Option<Attempt>, meta: Option<Meta>, axes: Axes, m: Marker)
    requires Inv(e) && MarkerAxes(node, attempt, meta) == Ok(axes) && !LinkOn(e, node.id, attempt)
    requires WriteMarker(e, route, node, evidence, axes).result == Ok(m)
    ensures Publish(e, route, node, evidence, attempt, meta, false).result == Ok(m)
  {
    FreshForm(e, route, node, evidence, attempt, meta, axes);
  }

  /** Cut behind the marker's writes. */
  lemma RepeatBehind(d: Disk, e: Disk, route: Route, node: NodeInfo, evidence: Evidence, attempt: Option<Attempt>, meta: Option<Meta>, axes: Axes, m: Marker, j: nat)
    requires Inv(e) && MarkerAxes(node, attempt, meta) == Ok(axes) && !LinkOn(d, node.id, attempt)
    requires CanonicalOf(d, node.id) == Some(m) && Numbered(d, node.id, m) && Answers(m, route, node, evidence, axes)
    requires e == ApplyAll(d, Cut(LinkPair(route, node.id, attempt, m), j))
    ensures RepeatFits(d, e, route, node, evidence, attempt, axes, m, Publish(e, route, node, evidence, attempt, meta, false).result, false)
  {
    if Named(attempt) { AxesName(node, attempt, meta); }
    LinkAfterPair(d, route, node.id, attempt, m, j);
    if LinkOn(e, node.id, attempt) {
      PublishAgain(e, route, node, evidence, attempt.value, meta, false, axes, m);
    } else {
      WriteAgain(e, route, node, evidence, axes, m);
      RepeatUnlinked(e, route, node, evidence, attempt, meta, axes, m);
    }
  }

  /** Cut within the marker's writes. */
  lemma RepeatWithin(d: Disk, e: Disk, route: Route, node: NodeInfo, evidence: Evidence, attempt: Option<Attempt>, meta: Option<Meta>, axes: Axes, m: Marker, j: nat)
    requires Inv(d) && Inv(e) && MarkerAxes(node, attempt, meta) == Ok(axes) && !LinkOn(d, node.id, attempt)
    requires WriteMarker(d, route, node, evidence, axes).result == Ok(m)
    requires var w := WriteMarker(d, route, node, evidence, axes).writes; j < |w| && e == ApplyAll(d, w[..j])
    ensures RepeatFits(d, e, route, node, evidence, attempt, axes, m, Publish(e, route, node, evidence, attempt, meta, false).result, j == 1)
  {
    MarkerWrites(d, route, node, evidence, axes);
    var w := WriteMarker(d, route, node, evidence, axes).writes;
    if j == 0 {
      assert w[..0] == [] && e == d;
      RepeatUnlinked(e, route, node, evidence, attempt, meta, axes, m);
    } else {
      assert w[..1] == [w[0]];
      ApplyOne(d, w[..1]);
      Orphaned(d, e, route, node, evidence, axes, m);
      RepeatUnlinked(e, route, node, evidence, attempt, meta, axes, NewMarker(route, node, evidence, axes, m.sequence + 1));
    }
  }

  predicate MakesMarker(d: Disk, node: NodeId, e: Evidence, attempt: Option<Attempt>, axes: Axes) {
    !LinkOn(d, node, attempt) && !Reuses(d, node, e, axes)
  }

  /** A publication that had nothing linked before, cut short and repeated. */
  lemma FreshRepeat(d: Disk, route: Route, node: NodeInfo, evidence: Evidence, attempt: Option<Attempt>, meta: Option<Meta>, axes: Axes, j: nat)
    requires Inv(d) && MarkerAxes(node, attempt, meta) == Ok(axes) && !LinkOn(d, node.id, attempt)
    requires Publish(d, route, node, evidence, attempt, meta, false).result.Ok?
    ensures var o := Publish(d, route, node, evidence, attempt, meta, false);
            var e := ApplyAll(d, Cut(o.writes, j));
            RepeatFits(d, e, route, node, evidence, attempt, axes, o.result.value, Publish(e, route, node, evidence, attempt, meta, false).result,
                       j == 1 && MakesMarker(d, node.id, evidence, attempt, axes))
  {
    var o, w := Publish(d, route, node, evidence, attempt, meta, false), WriteMarker(d, route, node, evidence, axes);
    FreshForm(d, route, node, evidence, attempt, meta, axes);
    MarkerWrites(d, route, node, evidence, axes);
    var m := w.result.value;
    var pair := LinkPair(route, node.id, attempt, m);
    PublishLegal(d, route, node, evidence, attempt, meta, false);
    CutInv(d, o.writes, j);
    FreshPrefix(d, w.writes, pair, j);
    var e := ApplyAll(d, Cut(o.writes, j));
    if j < |w.writes| {
      RepeatWithin(d, e, route, node, evidence, attempt, meta, axes, m, j);
    } else {
      var middle := ApplyAll(d, w.writes);
      MiddleUnlinked(d, route, node, evidence, axes, attempt);
      assert e == ApplyAll(middle, Cut(pair, j - |w.writes|)) by {
        if j == |w.writes| { assert Cut(w.writes, j) == w.writes && Cut(pair, 0) == []; }
      }
      RepeatBehind(middle, e, route, node, evidence, attempt, meta, axes, m, j - |w.writes|);
    }
  }

  lemma MiddleUnlinked(d: Disk, route: Route, node: NodeInfo, e: Evidence, axes: Axes, attempt: Option<Attempt>)
    requires !LinkOn(d, node.id, attempt)
    ensures !LinkOn(ApplyAll(d, WriteMarker(d, route, node, e, axes).writes), node.id, attempt)
  {
    var w := WriteMarker(d, route, node, e, axes);
    if w.writes != [] { ApplyTwo(d, w.writes); }
  }

  /** A publication under an existing link, cut short and repeated: the linked marker again. */
  lemma LinkedRepeat(d: Disk, route: Route, node: NodeInfo, evidence: Evidence, attempt: Option<Attempt>, meta: Option<Meta>, needLink: bool, axes: Axes, j: nat)
    requires Inv(d) && MarkerAxes(node, attempt, meta) == Ok(axes) && LinkOn(d, node.id, attempt)
    requires Publish(d, route, node, evidence, attempt, meta, needLink).result.Ok?
    ensures var o := Publish(d, route, node, evidence, attempt, meta, needLink);
            var e := ApplyAll(d, Cut(o.writes, j));
            RepeatFits(d, e, route, node, evidence, attempt, axes, o.result.value, Publish(e, route, node, evidence, attempt, meta, needLink).result, false)
  {
    var o := Publish(d, route, node, evidence, attempt, meta, needLink);
    AxesName(node, attempt, meta);
    LinkedAgain(d, route, node, evidence, attempt.value, axes);
    var m := LinkedMarker(d, route, node, evidence, attempt.value, axes, d.files[AttemptLink(node.id, SafeName(attempt.value))]).value;
    PublishAgain(d, route, node, evidence, attempt.value, meta, needLink, axes, m);
    PublishLegal(d, route, node, evidence, attempt, meta, needLink);
    CutInv(d, o.writes, j);
    var e := ApplyAll(d, Cut(o.writes, j));
    LinkedLater(d, e, route, node.id, attempt.value, m);
    PublishAgain(e, route, node, evidence, attempt.value, meta, needLink, axes, m);
  }

  /* ---- One call, crashed and retried ---- */

  /** The axes a call would publish under. */
  function AxesOf(d: Disk, c: Call): Option<Axes> {
    match MarkerAxes(c.node, c.attempt, MetaOf(d, c))
    case Ok(axes) => Some(axes)
    case Err(_) => None
  }

  /** The call would make a new marker: no link yet, and the canonical marker is another's. */
  predicate NewOne(d: Disk, c: Call) {
    AxesOf(d, c).Some? && MakesMarker(d, c.node.id, c.evidence, c.attempt, AxesOf(d, c).value)
  }

  /** A link on disk can be repeated by this call: no owner chain, and the marker's own evidence file. */
  predicate Repeatable(d: Disk, c: Call, m: Marker) {
    AxesOf(d, c).Some? && AxesOf(d, c).value.chain.None? && m.evidence.path == c.evidence.path
  }

  lemma {:induction false} NoEditsKeepRows(d: Disk, writes: seq<Write>)
    requires NoEdits(writes)
    ensures ApplyAll(d, writes).rows == d.rows
    decreases |writes|
  {
    if writes != [] {
      assert !writes[0].EditRow?;
      NoEditsKeepRows(Apply(d, writes[0]), writes[1..]);
    }
  }

  lemma PublishedNoEdits(d: Disk, route: Route, c: Call, k: nat)
    ensures NoEdits(Cut(Published(d, route, c).writes, k))
  {
    PublishNoEdits(d, route, c.node, c.evidence, c.attempt, MetaOf(d, c), NeedsLink(d, c));
  }

  /** A publication, cut short and repeated, with or without a link before it. */
  lemma PublishedRepeat(d: Disk, route: Route, c: Call, k: nat)
    requires Inv(d) && Published(d, route, c).result.Ok?
    ensures AxesOf(d, c).Some?
    ensures var p := Published(d, route, c);
            var e := ApplyAll(d, Cut(p.writes, k));
            RepeatFits(d, e, route, c.node, c.evidence, c.attempt, AxesOf(d, c).value, p.result.value,
                       Publish(e, route, c.node, c.evidence, c.attempt, MetaOf(d, c), NeedsLink(d, c)).result, k == 1 && NewOne(d, c))
  {
    var axes := AxesOf(d, c).value;
    if LinkOn(d, c.node.id, c.attempt) {
      LinkedRepeat(d, route, c.node, c.evidence, c.attempt, MetaOf(d, c), NeedsLink(d, c), axes, k);
    } else {
      UnlinkedNeedsNone(d, route, c);
      FreshRepeat(d, route, c.node, c.evidence, c.attempt, MetaOf(d, c), axes, k);
    }
  }

  lemma UnlinkedNeedsNone(d: Disk, route: Route, c: Call)
    requires Published(d, route, c).result.Ok? && !LinkOn(d, c.node.id, c.attempt)
    ensures Published(d, route, c) == Publish(d, route, c.node, c.evidence, c.attempt, MetaOf(d, c), false)
    ensures forall e :: Publish(e, route, c.node, c.evidence, c.attempt, MetaOf(d, c), NeedsLink(d, c)) ==
                        Publish(e, route, c.node, c.evidence, c.attempt, MetaOf(d, c), false)
  {
  }

  /** What a retry answers, whatever was on disk when it came. */
  ghost predicate RetryFits(d: Disk, e: Disk, route: Route, c: Call, k: nat, first: (Marker, Status), again: Result<(Marker, Status), MarkerError>) {
    var m, orphan := first.0, k == 1 && NewOne(d, c);
    && (again.Ok? <==> !LinkOn(e, c.node.id, c.attempt) || Repeatable(d, c, m))
    && (again.Ok? ==> again.value.0 == if orphan then m.(sequence := m.sequence + 1) else m)
    && (orphan ==> !LinkOn(e, c.node.id, c.attempt) && Numbered(e, c.node.id, m))
  }

  /** The crash came before the row was closed, or there is no row to close. */
  lemma RetryUnedited(d: Disk, e: Disk, route: Route, c: Call, k: nat)
    requires Inv(d) && Complete(d, route, c).result.Ok? && e == ApplyAll(d, Cut(Published(d, route, c).writes, k))
    ensures RetryFits(d, e, route, c, k, Complete(d, route, c).result.value, Complete(e, route, c).result)
    ensures Complete(e, route, c).result.Ok? ==> Complete(e, route, c).result.value.1 == Complete(d, route, c).result.value.1
  {
    CompleteForm(d, route, c);
    CompleteForm(e, route, c);
    PublishedNoEdits(d, route, c, k);
    NoEditsKeepRows(d, Cut(Published(d, route, c).writes, k));
    SameRowsSame(d, e, route, c);
    PublishedRepeat(d, route, c, k);
    NewIsNext(d, route, c, k);
  }

  /** The marker a new call makes is the crashed one but for its number. */
  lemma NewIsNext(d: Disk, route: Route, c: Call, k: nat)
    requires Inv(d) && Published(d, route, c).result.Ok? && AxesOf(d, c).Some?
    ensures var m := Published(d, route, c).result.value;
            NewOne(d, c) ==> NewMarker(route, c.node, c.evidence, AxesOf(d, c).value, m.sequence + 1) == m.(sequence := m.sequence + 1)
  {
    if NewOne(d, c) {
      UnlinkedNeedsNone(d, route, c);
      FreshResult(d, route, c.node, c.evidence, c.attempt, MetaOf(d, c), AxesOf(d, c).value);
    }
  }

  lemma FreshResult(d: Disk, route: Route, node: NodeInfo, e: Evidence, attempt: Option<Attempt>, meta: Option<Meta>, axes: Axes)
    requires Inv(d) && MarkerAxes(node, attempt, meta) == Ok(axes) && MakesMarker(d, node.id, e, attempt, axes)
    ensures Publish(d, route, node, e, attempt, meta, false).result == Ok(NewMarker(route, node, e, axes, NextSequence(d, node.id)))
  {
    FreshForm(d, route, node, e, attempt, meta, axes);
  }

  /** The crash came behind the row edit. */
  lemma RetryEdited(d: Disk, e: Disk, route: Route, c: Call)
    requires Inv(d) && Named(c.attempt) && Complete(d, route, c).result.Ok? && e == ApplyAll(d, Complete(d, route, c).writes)
    requires Edit(d, c, Complete(d, route, c).result.value.0) != []
    ensures LinkOn(e, c.node.id, c.attempt) && AxesOf(e, c) == AxesOf(d, c)
    ensures Complete(e, route, c).result.Ok? <==> Repeatable(d, c, Complete(d, route, c).result.value.0)
    ensures Complete(e, route, c).result.Ok? ==> Complete(e, route, c).result.value == (Complete(d, route, c).result.value.0, AlreadyClosed)
  {
    SuccessCompletes(d, route, c);
    RetryGivesSameMarker(d, route, c, []);
    CompleteForm(d, route, c);
    var k := RowOf(d.rows, c.attempt.value, 0);
    RowAfterSuccess(d, route, c, k, e.rows);
  }

  lemma CutCall(d: Disk, route: Route, c: Call, k: nat)
    requires Complete(d, route, c).result.Ok?
    ensures var writes, p := Complete(d, route, c).writes, Published(d, route, c);
            Cut(writes, k) == if k < |writes| || Edit(d, c, p.result.value) == [] then Cut(p.writes, k) else writes
  {
    CompleteForm(d, route, c);
  }

  /** A call that would have succeeded crashes after any number of its writes and is made again at
      once. It succeeds exactly if its link is not on disk yet, or can be repeated. It gives the
      crashed call's marker exactly if the crash did not fall between a new history entry and the
      canonical marker; then the entry is left behind and the next number is taken. */
  lemma RetryAfterCrash(d: Disk, route: Route, c: Call, k: nat)
    requires Inv(d) && Complete(d, route, c).result.Ok?
    ensures RetryFits(d, Step(d, route, CrashIn(c, k)), route, c, k, Complete(d, route, c).result.value, Complete(Step(d, route, CrashIn(c, k)), route, c).result)
  {
    var e, o := Step(d, route, CrashIn(c, k)), Complete(d, route, c);
    var m := o.result.value.0;
    CompleteForm(d, route, c);
    CutCall(d, route, c, k);
    assert e == ApplyAll(d, Cut(o.writes, k));
    if k < |o.writes| || Edit(d, c, m) == [] {
      RetryUnedited(d, e, route, c, k);
    } else {
      RetryEdited(d, e, route, c);
      if NewOne(d, c) { EditIsLate(d, route, c); }
    }
  }

  /** A call that makes a marker and closes a row writes five times. */
  lemma EditIsLate(d: Disk, route: Route, c: Call)
    requires Inv(d) && Complete(d, route, c).result.Ok? && Edit(d, c, Complete(d, route, c).result.value.0) != [] && NewOne(d, c)
    ensures |Complete(d, route, c).writes| > 1
  {
    CompleteForm(d, route, c);
    UnlinkedNeedsNone(d, route, c);
    FreshForm(d, route, c.node, c.evidence, c.attempt, MetaOf(d, c), AxesOf(d, c).value);
    MarkerWrites(d, route, c.node, c.evidence, AxesOf(d, c).value);
  }

  /* ---- Once the link is on disk ---- */

  lemma {:induction false} PrefixGrown(d: Disk, writes: seq<Write>, k: nat)
    requires Inv(d) && LegalWrites(d, writes) && k <= |writes|
    ensures Grown(ApplyAll(d, writes[..k]), ApplyAll(d, writes))
    decreases |writes|
  {
    if k == 0 {
      CrashInv(d, writes, |writes|);
      assert writes[..0] == [] && writes[..|writes|] == writes;
    } else {
      WriteInv(d, writes[0]);
      PrefixGrown(Apply(d, writes[0]), writes[1..], k - 1);
      assert writes[..k][1..] == writes[1..][..k - 1];
    }
  }

  /** A link on disk that a later state keeps is the later state's. */
  lemma LinkedEarlier(e: Disk, full: Disk, route: Route, node: NodeId, attempt: Attempt, m: Marker)
    requires Inv(e) && Grown(e, full) && Linked(full, route, node, attempt, m) && AttemptLink(node, SafeName(attempt)) in e.files
    ensures Linked(e, route, node, attempt, m)
  {
    assert LinkFine(e, node, SafeName(attempt));
  }

  lemma CrashGrown(d: Disk, route: Route, c: Call, k: nat)
    requires Inv(d)
    ensures var e := Step(d, route, CrashIn(c, k)); Inv(e) && Grown(d, e) && RowsGrow(d.rows, e.rows) && Grown(e, Step(d, route, Completes(c)))
  {
    var writes := Complete(d, route, c).writes;
    StepInv(d, route, CrashIn(c, k));
    CompleteLegal(d, route, c);
    PrefixGrown(d, writes, if k <= |writes| then k else |writes|);
    assert writes[..|writes|] == writes;
  }

  lemma AxesStay(d: Disk, e: Disk, route: Route, c: Call)
    requires CallFits(d, route, c) && RowsGrow(d.rows, e.rows)
    ensures AxesOf(e, c) == AxesOf(d, c)
  {
    if c.registry { SameRowFound(d.rows, e.rows, c.attempt.value, 0); }
  }

  lemma PublishedAnswers(d: Disk, route: Route, c: Call)
    requires Inv(d) && Complete(d, route, c).result.Ok?
    ensures CallFits(d, route, c) && AxesOf(d, c).Some?
    ensures Answers(Complete(d, route, c).result.value.0, route, c.node, c.evidence, AxesOf(d, c).value)
  {
    CompleteForm(d, route, c);
    PublishLegal(d, route, c.node, c.evidence, c.attempt, MetaOf(d, c), NeedsLink(d, c));
  }

  /** The crash came behind the link: from then on, through whatever run, a retry succeeds exactly if
      its row lets it and the link can be repeated, and then gives the crashed call's marker. */
  lemma RetryLater(d: Disk, route: Route, c: Call, k: nat, later: seq<Event>)
    requires Inv(d) && Complete(d, route, c).result.Ok? && LinkOn(Step(d, route, CrashIn(c, k)), c.node.id, c.attempt)
    ensures var m := Complete(d, route, c).result.value.0;
            var now := Run(Step(d, route, CrashIn(c, k)), route, later);
            var again := Complete(now, route, c).result;
            && (again.Ok? <==> CallFits(now, route, c) && Repeatable(d, c, m))
            && (again.Ok? ==> again.value.0 == m)
  {
    var m, e := Complete(d, route, c).result.value.0, Step(d, route, CrashIn(c, k));
    var now := Run(e, route, later);
    CrashGrown(d, route, c, k);
    SuccessLinks(d, route, c);
    LinkedEarlier(e, Step(d, route, Completes(c)), route, c.node.id, c.attempt.value, m);
    RunInv(e, route, later);
    LinkedLater(e, now, route, c.node.id, c.attempt.value, m);
    PublishedAnswers(d, route, c);
    RowsGrowTrans(d.rows, e.rows, now.rows);
    AxesStay(d, now, route, c);
    CompleteForm(now, route, c);
    PublishAgain(now, route, c.node, c.evidence, c.attempt.value, MetaOf(now, c), NeedsLink(now, c), AxesOf(d, c).value, m);
  }

  /* ---- Two crashes ---- */

  const ROUTE := Route("r", "h", "g")
  const NODE := NodeInfo("n", "gate", false, 0, true)

  function MetaWith(chain: Option<Chain>): Meta {
    Meta(chain, 0, "headless", "inline", false, "", true)
  }

  function CallWith(chain: Option<Chain>, registry: bool): Call {
    Call(NODE, Evidence("p", "sha"), registry, true, Some("x"), if registry then None else Some(MetaWith(chain)))
  }

  lemma FirstNumber(rows: seq<Row>)
    ensures NextSequence(Disk(map[], rows), "n") == 1 && Inv(Disk(map[], rows))
  {
    EmptyInv();
    SameFilesInv(EMPTY, Disk(map[], rows));
    assert Sequences(Disk(map[], rows), "n") == {};
  }

  /** The first call of an attempt on an empty disk. */
  lemma FirstCall(rows: seq<Row>, c: Call)
    requires c.node == NODE && CallFits(Disk(map[], rows), ROUTE, c) && c.attempt == Some("x") && AxesOf(Disk(map[], rows), c).Some?
    requires !NeedsLink(Disk(map[], rows), c)
    ensures var d := Disk(map[], rows);
            && Complete(d, ROUTE, c).result.Ok? && Complete(d, ROUTE, c).result.value.0.sequence == 1 && NewOne(d, c)
            && |Published(d, ROUTE, c).writes| == 4 && Published(d, ROUTE, c).writes[2].path == AttemptLink("n", SafeName("x"))
            && NoEdits(Published(d, ROUTE, c).writes)
  {
    var d := Disk(map[], rows);
    FirstNumber(rows);
    FreshForm(d, ROUTE, NODE, c.evidence, c.attempt, MetaOf(d, c), AxesOf(d, c).value);
    MarkerWrites(d, ROUTE, NODE, c.evidence, AxesOf(d, c).value);
    CompleteForm(d, ROUTE, c);
    PublishedNoEdits(d, ROUTE, c, 4);
  }

  /** An attempt completes on an empty disk with number 1; had it crashed behind its first write, the
      same call would have completed with number 2. */
  lemma RetryMayRenumber()
    ensures var c := CallWith(None, false);
            && Complete(EMPTY, ROUTE, c).result.Ok? && Complete(EMPTY, ROUTE, c).result.value.0.sequence == 1
            && var again := Complete(Run(EMPTY, ROUTE, [CrashIn(c, 1)]), ROUTE, c).result;
               again.Ok? && again.value.0.sequence == 2
  {
    var c := CallWith(None, false);
    FirstCall([], c);
    FirstNumber([]);
    RetryAfterCrash(EMPTY, ROUTE, c, 1);
    var e := Step(EMPTY, ROUTE, CrashIn(c, 1));
    assert [CrashIn(c, 1)][1..] == [] && Run(EMPTY, ROUTE, [CrashIn(c, 1)]) == e;
  }

  const CHAIN := Chain("manifest", "digest", "session")
  const OPEN_ROW := Row(true, Open, Some("x"), "r", "h", "n", false, None, None, MetaWith(Some(CHAIN)), None)

  /** An owner chain crashes between its link and its row: no retry ever succeeds, whatever happens
      in between, although the call without the crash would have closed the row. */
  lemma OwnerChainIsStuck(later: seq<Event>)
    ensures var c, d := CallWith(Some(CHAIN), true), Disk(map[], [OPEN_ROW]);
            && d == Run(EMPTY, ROUTE, [AddRow(OPEN_ROW)])
            && Complete(d, ROUTE, c).result.Ok? && Complete(d, ROUTE, c).result.value.1 == Closed
            && Step(d, ROUTE, CrashIn(c, 3)).rows == d.rows
            && Complete(Run(Step(d, ROUTE, CrashIn(c, 3)), ROUTE, later), ROUTE, c).result.Err?
  {
    var c, d := CallWith(Some(CHAIN), true), Disk(map[], [OPEN_ROW]);
    assert [AddRow(OPEN_ROW)][1..] == [] && EMPTY.rows + [OPEN_ROW] == [OPEN_ROW];
    FirstCall([OPEN_ROW], c);
    FirstNumber([OPEN_ROW]);
    CompleteForm(d, ROUTE, c);
    ThreeWrites(d, c);
    RetryLater(d, ROUTE, c, 3, later);
  }

  lemma ThreeWrites(d: Disk, c: Call)
    requires Complete(d, ROUTE, c).result.Ok? && |Published(d, ROUTE, c).writes| == 4 && NoEdits(Published(d, ROUTE, c).writes)
    requires Published(d, ROUTE, c).writes[2].path == AttemptLink("n", SafeName("x"))
    ensures var e := Step(d, ROUTE, CrashIn(c, 3)); e.rows == d.rows && LinkOn(e, "n", Some("x"))
  {
    var writes := Published(d, ROUTE, c).writes;
    CutCall(d, ROUTE, c, 3);
    CompleteForm(d, ROUTE, c);
    assert Cut(writes, 3) == writes[..2] + [writes[2]];
    NoEditsKeepRows(d, Cut(writes, 3));
    ApplyAllJoin(d, writes[..2], [writes[2]]);
    ApplyOne(ApplyAll(d, writes[..2]), [writes[2]]);
  }
}
