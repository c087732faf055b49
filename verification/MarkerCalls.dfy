/** What one completion call does to a disk that satisfies the invariant. */
module MarkerCalls {
  import opened Prelude
  import opened MarkerModel
  import opened MarkerInvariant

  /** The attempt's link repeats the marker, and the marker is numbered. */
  predicate Linked(d: Disk, route: Route, node: NodeId, attempt: Attempt, m: Marker) {
    && Numbered(d, node, m) && m.axes.attempt == Some(attempt)
    && AttemptLink(node, SafeName(attempt)) in d.files
    && d.files[AttemptLink(node, SafeName(attempt))] == IsLink(LinkFor(route, node, attempt, m))
  }

  /** The marker is one for this call: same route, gate, digest and attempt identity. */
  predicate Answers(m: Marker, route: Route, node: NodeInfo, e: Evidence, axes: Axes) {
    m.route == route && m.node == node.id && m.gate == node.gate && m.evidence.digest == e.digest && AxesMatch(m.axes, axes)
  }

  lemma AxesName(node: NodeInfo, attempt: Option<Attempt>, meta: Option<Meta>)
    requires MarkerAxes(node, attempt, meta).Ok? && Named(attempt)
    ensures MarkerAxes(node, attempt, meta).value.attempt == attempt
  {
  }

  /** An accepted link is repeated word for word. */
  lemma LinkedAgain(d: Disk, route: Route, node: NodeInfo, e: Evidence, attempt: Attempt, axes: Axes)
    requires Inv(d) && AttemptLink(node.id, SafeName(attempt)) in d.files && axes.attempt == Some(attempt)
    requires LinkedMarker(d, route, node, e, attempt, axes, d.files[AttemptLink(node.id, SafeName(attempt))]).Ok?
    ensures var m := LinkedMarker(d, route, node, e, attempt, axes, d.files[AttemptLink(node.id, SafeName(attempt))]).value;
            Linked(d, route, node.id, attempt, m) && Answers(m, route, node, e, axes) && Canonical(node.id) in d.files && axes.chain.None?
  {
    assert LinkFine(d, node.id, SafeName(attempt));
  }

  lemma FreshLink(d: Disk, route: Route, node: NodeInfo, e: Evidence, attempt: Attempt, axes: Axes)
    requires Inv(d) && AttemptLink(node.id, SafeName(attempt)) !in d.files && axes.attempt == Some(attempt)
    requires WriteMarker(d, route, node, e, axes).result.Ok?
    ensures var w := WriteMarker(d, route, node, e, axes);
            var middle := ApplyAll(d, w.writes);
            && Inv(middle) && middle.rows == d.rows && AttemptLink(node.id, SafeName(attempt)) !in middle.files
            && Numbered(middle, node.id, w.result.value) && Canonical(node.id) in middle.files
            && Answers(w.result.value, route, node, e, axes)
  {
    var w := WriteMarker(d, route, node, e, axes);
    WriteMarkerLegal(d, route, node, e, axes);
    CrashInv(d, w.writes, |w.writes|);
    assert w.writes[..|w.writes|] == w.writes;
    if w.writes != [] { ApplyTwo(d, w.writes); }
  }

  /** One publication: all its writes are legal, an error leaves the disk alone, and success gives a
      numbered marker of this call, linked to the attempt if there is one. */
  lemma PublishLegal(d: Disk, route: Route, node: NodeInfo, e: Evidence, attempt: Option<Attempt>, meta: Option<Meta>, needLink: bool)
    requires Inv(d)
    ensures var o := Publish(d, route, node, e, attempt, meta, needLink);
            var after := ApplyAll(d, o.writes);
            && LegalWrites(d, o.writes) && after.rows == d.rows
            && (o.result.Err? ==> o.writes == [])
            && (o.result.Ok? ==>
                  && MarkerAxes(node, attempt, meta).Ok?
                  && Answers(o.result.value, route, node, e, MarkerAxes(node, attempt, meta).value)
                  && Numbered(after, node.id, o.result.value)
                  && (Named(attempt) ==> Linked(after, route, node.id, attempt.value, o.result.value)))
  {
    var o := Publish(d, route, node, e, attempt, meta, needLink);
    match MarkerAxes(node, attempt, meta)
    case Err(_) =>
    case Ok(axes) =>
      WriteMarkerLegal(d, route, node, e, axes);
      if !Named(attempt) {
        PublishUnnamed(d, route, node, e, attempt, meta, needLink, axes);
      } else {
        AxesName(node, attempt, meta);
        PublishNamed(d, route, node, e, attempt.value, meta, needLink, axes);
      }
  }

  lemma WriteMarkerFiles(d: Disk, route: Route, node: NodeInfo, e: Evidence, axes: Axes)
    ensures var o := WriteMarker(d, route, node, e, axes);
            ApplyAll(d, o.writes).rows == d.rows && (o.result.Err? ==> o.writes == [])
  {
    var o := WriteMarker(d, route, node, e, axes);
    if o.writes != [] { ApplyTwo(d, o.writes); }
  }

  lemma PublishUnnamed(d: Disk, route: Route, node: NodeInfo, e: Evidence, attempt: Option<Attempt>, meta: Option<Meta>, needLink: bool, axes: Axes)
    requires Inv(d) && !Named(attempt) && MarkerAxes(node, attempt, meta) == Ok(axes)
    ensures var o := Publish(d, route, node, e, attempt, meta, needLink);
            var after := ApplyAll(d, o.writes);
            && LegalWrites(d, o.writes) && after.rows == d.rows && (o.result.Err? ==> o.writes == [])
            && (o.result.Ok? ==> Answers(o.result.value, route, node, e, axes) && Numbered(after, node.id, o.result.value))
  {
    WriteMarkerLegal(d, route, node, e, axes);
    WriteMarkerFiles(d, route, node, e, axes);
  }

  lemma PublishNamed(d: Disk, route: Route, node: NodeInfo, e: Evidence, attempt: Attempt, meta: Option<Meta>, needLink: bool, axes: Axes)
    requires Inv(d) && Named(Some(attempt)) && MarkerAxes(node, Some(attempt), meta) == Ok(axes) && axes.attempt == Some(attempt)
    ensures var o := Publish(d, route, node, e, Some(attempt), meta, needLink);
            var after := ApplyAll(d, o.writes);
            && LegalWrites(d, o.writes) && after.rows == d.rows && (o.result.Err? ==> o.writes == [])
            && (o.result.Ok? ==> Answers(o.result.value, route, node, e, axes) && Linked(after, route, node.id, attempt, o.result.value))
  {
    var path := AttemptLink(node.id, SafeName(attempt));
    if path in d.files {
      var found := LinkedMarker(d, route, node, e, attempt, axes, d.files[path]);
      if found.Ok? {
        LinkedAgain(d, route, node, e, attempt, axes);
        LinkStep(d, route, node.id, attempt, found.value);
      }
    } else if !needLink {
      var w := WriteMarker(d, route, node, e, axes);
      WriteMarkerLegal(d, route, node, e, axes);
      WriteMarkerFiles(d, route, node, e, axes);
      if w.result.Ok? {
        FreshLink(d, route, node, e, attempt, axes);
        var middle := ApplyAll(d, w.writes);
        LinkStep(middle, route, node.id, attempt, w.result.value);
        LegalJoin(d, w.writes, LinkWrites(middle, route, node.id, attempt, w.result.value).writes);
      }
    }
  }

  /** Linking a numbered marker succeeds when the link is new or says the same already. */
  lemma LinkStep(d: Disk, route: Route, node: NodeId, attempt: Attempt, m: Marker)
    requires Inv(d) && Numbered(d, node, m) && Canonical(node) in d.files
    requires m.axes.attempt == Some(attempt) && m.route.routeId == route.routeId
    requires AttemptLink(node, SafeName(attempt)) in d.files ==> Linked(d, route, node, attempt, m)
    ensures var o := LinkWrites(d, route, node, attempt, m);
            && LegalWrites(d, o.writes) && o.result == Ok(m) && ApplyAll(d, o.writes).rows == d.rows
            && Linked(ApplyAll(d, o.writes), route, node, attempt, m)
  {
    var o := LinkWrites(d, route, node, attempt, m);
    LinkWritesLegal(d, route, node, attempt, m);
    CrashInv(d, o.writes, |o.writes|);
    assert o.writes[..|o.writes|] == o.writes;
  }

  /** Publishing again under an existing link gives the linked marker back, exactly if the call is not
      for an owner chain and names the evidence file the marker was made for. */
  lemma PublishAgain(d: Disk, route: Route, node: NodeInfo, e: Evidence, attempt: Attempt, meta: Option<Meta>, needLink: bool, axes: Axes, m: Marker)
    requires Inv(d) && Named(Some(attempt)) && MarkerAxes(node, Some(attempt), meta) == Ok(axes)
    requires Linked(d, route, node.id, attempt, m) && Answers(m, route, node, e, axes)
    ensures var o := Publish(d, route, node, e, Some(attempt), meta, needLink);
            && (o.result.Ok? <==> axes.chain.None? && m.evidence.path == e.path)
            && (o.result.Ok? ==> o.result.value == m && forall i :: 0 <= i < |o.writes| ==> o.writes[i].Replace? && o.writes[i].path.NodeLink?)
  {
    AxesName(node, Some(attempt), meta);
    var path := AttemptLink(node.id, SafeName(attempt));
    assert LinkFine(d, node.id, SafeName(attempt));
    var found := LinkedMarker(d, route, node, e, attempt, axes, d.files[path]);
    if axes.chain.None? && m.evidence.path == e.path {
      assert found == Ok(m);
      LinkStep(d, route, node.id, attempt, m);
    }
  }

  /** Publication writes files only. */
  lemma PublishKeepsRows(d: Disk, route: Route, node: NodeInfo, e: Evidence, attempt: Option<Attempt>, meta: Option<Meta>, needLink: bool)
    ensures ApplyAll(d, Publish(d, route, node, e, attempt, meta, needLink).writes).rows == d.rows
  {
    if MarkerAxes(node, attempt, meta).Ok? {
      var axes := MarkerAxes(node, attempt, meta).value;
      var w := WriteMarker(d, route, node, e, axes);
      WriteMarkerFiles(d, route, node, e, axes);
      if Named(attempt) {
        var path := AttemptLink(node.id, SafeName(attempt.value));
        if path in d.files {
          var found := LinkedMarker(d, route, node, e, attempt.value, axes, d.files[path]);
          if found.Ok? { LinkKeepsRows(d, route, node.id, attempt.value, found.value); }
        } else if w.result.Ok? {
          var middle := ApplyAll(d, w.writes);
          LinkKeepsRows(middle, route, node.id, attempt.value, w.result.value);
          ApplyAllJoin(d, w.writes, LinkWrites(middle, route, node.id, attempt.value, w.result.value).writes);
        }
      }
    }
  }

  lemma LinkKeepsRows(d: Disk, route: Route, node: NodeId, attempt: Attempt, m: Marker)
    ensures ApplyAll(d, LinkWrites(d, route, node, attempt, m).writes).rows == d.rows
  {
    var o := LinkWrites(d, route, node, attempt, m);
    if |o.writes| == 1 { ApplyOne(d, o.writes); }
    if |o.writes| == 2 { ApplyTwo(d, o.writes); }
  }

  /* ---- Whole calls ---- */

  /** A completed row keeps its mark. */
  predicate Marked(r: Row) {
    r.status == Done && r.note == Some("completed-marker")
  }

  /** Rows are compared on everything a completion may not touch. */
  predicate SameRow(a: Row, b: Row) {
    a.(status := b.status, note := b.note, marker := b.marker) == b
  }

  lemma {:induction false} ApplyAllJoin(d: Disk, a: seq<Write>, b: seq<Write>)
    ensures ApplyAll(d, a + b) == ApplyAll(ApplyAll(d, a), b)
    decreases |a|
  {
    if a == [] {
      assert [] + b == b;
    } else {
      assert (a + b)[0] == a[0] && (a + b)[1..] == a[1..] + b;
      ApplyAllJoin(Apply(d, a[0]), a[1..], b);
    }
  }

  /** At most the first row of the attempt changes, and only while it is not marked. */
  predicate OnlyItsRow(before: seq<Row>, after: seq<Row>, attempt: Option<Attempt>) {
    && |after| == |before|
    && forall i :: 0 <= i < |before| && after[i] != before[i] ==>
         && attempt.Some? && i == RowOf(before, attempt.value, 0) && !Marked(before[i])
         && Marked(after[i]) && SameRow(before[i], after[i])
  }

  /** Appending the row edit to a publication is legal and changes that row only. */
  lemma EditLegal(d: Disk, writes: seq<Write>, k: nat, r: Row)
    requires Inv(d) && LegalWrites(d, writes) && ApplyAll(d, writes).rows == d.rows && k < |d.rows|
    ensures LegalWrites(d, writes + [EditRow(k, r)]) && ApplyAll(d, writes + [EditRow(k, r)]).rows == d.rows[k := r]
  {
    var edit := [EditRow(k, r)];
    ApplyOne(ApplyAll(d, writes), edit);
    LegalJoin(d, writes, edit);
  }

  lemma CompleteRowLegal(d: Disk, route: Route, c: Call, k: nat)
    requires Inv(d) && k < |d.rows| && c.attempt.Some? && k == RowOf(d.rows, c.attempt.value, 0)
    ensures var o := CompleteRow(d, route, c, k);
            && LegalWrites(d, o.writes) && OnlyItsRow(d.rows, ApplyAll(d, o.writes).rows, c.attempt)
            && (o.result.Err? ==> o.writes == [])
  {
    var r := d.rows[k];
    if RowError(route, c, r).None? {
      var closed := r.status == Done && !MarkerEligible(r);
      var o := Publish(d, route, c.node, c.evidence, c.attempt, Some(r.meta), closed);
      PublishLegal(d, route, c.node, c.evidence, c.attempt, Some(r.meta), closed);
      if o.result.Ok? && !closed {
        var after := ClosedRow(r, History(c.node.id, o.result.value.sequence));
        EditLegal(d, o.writes, k, after);
        EditsItsRow(d.rows, k, after, c.attempt);
      }
    }
  }

  lemma EditsItsRow(rows: seq<Row>, k: nat, after: Row, attempt: Option<Attempt>)
    requires k < |rows| && attempt.Some? && k == RowOf(rows, attempt.value, 0)
    requires !Marked(rows[k]) && Marked(after) && SameRow(rows[k], after)
    ensures OnlyItsRow(rows, rows[k := after], attempt)
  {
  }

  /** Every call writes legally, touches no row but its attempt's, and that one at most once. */
  lemma CompleteLegal(d: Disk, route: Route, c: Call)
    requires Inv(d)
    ensures var o := Complete(d, route, c);
            && LegalWrites(d, o.writes) && OnlyItsRow(d.rows, ApplyAll(d, o.writes).rows, c.attempt)
  {
    if c.registry && !Named(c.attempt) {
    } else if !c.registry {
      PublishLegal(d, route, c.node, c.evidence, c.attempt, c.explicit, false);
    } else if !c.writable || RowOf(d.rows, c.attempt.value, 0) == |d.rows| {
      PublishLegal(d, route, c.node, c.evidence, c.attempt, c.explicit, false);
    } else {
      CompleteRowLegal(d, route, c, RowOf(d.rows, c.attempt.value, 0));
    }
  }
}
