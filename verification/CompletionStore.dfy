/** The completion directory and the registry, changed write by write. */
module CompletionStoreObject {
  import opened Prelude
  import opened MarkerModel
  import opened MarkerInvariant
  import opened MarkerCalls

  class CompletionStore {
    var files: map<Path, File>
    var rows: seq<Row>
    /** Every write so far; a crash may stop between any two. */
    ghost var trace: seq<Write>

    function Now(): Disk
      reads this
    {
      Disk(files, rows)
    }

    /** The disk and the trace moved on by exactly these writes. */
    twostate predicate Wrote(writes: seq<Write>)
      reads this
    {
      Now() == ApplyAll(old(Now()), writes) && trace == old(trace) + writes
    }

    constructor ()
      ensures Now() == Disk(map[], []) && trace == []
    {
      files, rows, trace := map[], [], [];
    }

    /** Creates the file, or finds it with the same content; other content is refused. */
    method WriteOnce(path: Path, file: File) returns (ok: bool)
      modifies this
      ensures ok <==> path !in old(files) || old(files)[path] == file
      ensures files == (if path in old(files) then old(files) else old(files)[path := file]) && rows == old(rows)
      ensures trace == old(trace) + if path in old(files) then [] else [Create(path, file)]
    {
      if path in files { return files[path] == file; }
      files := files[path := file];
      trace := trace + [Create(path, file)];
      ok := true;
    }

    method AtomicWrite(path: Path, file: File)
      modifies this
      ensures files == old(files)[path := file] && rows == old(rows) && trace == old(trace) + [Replace(path, file)]
    {
      files := files[path := file];
      trace := trace + [Replace(path, file)];
    }

    /** Scans the directory for the largest number of the node. */
    method NextMarkerSequence(node: NodeId) returns (n: nat)
      ensures n == NextSequence(Now(), node)
    {
      var maximum: nat := 0;
      var left := files.Keys;
      while left != {}
        invariant left <= files.Keys
        invariant forall p :: p in files.Keys - left && p.History? && p.node == node ==> p.sequence <= maximum
        invariant maximum == 0 || maximum in Sequences(Now(), node)
        decreases left
      {
        var p :| p in left;
        left := left - {p};
        if p.History? && p.node == node && p.sequence > maximum { maximum := p.sequence; }
      }
      ghost var m := MaxOf(Sequences(Now(), node));
      assert m <= maximum by {
        if m != 0 { var p :| p in files && p.History? && p.node == node && p.sequence == m; }
      }
      n := maximum + 1;
    }

    method WriteCompletionMarker(route: Route, node: NodeInfo, e: Evidence, axes: Axes) returns (r: Result<Marker, MarkerError>)
      modifies this
      ensures r == WriteMarker(old(Now()), route, node, e, axes).result
      ensures Wrote(WriteMarker(old(Now()), route, node, e, axes).writes)
    {
      var path := Canonical(node.id);
      if path in files && files[path].IsMarker? {
        var m := files[path].marker;
        if m.evidence.digest == e.digest && AxesMatch(m.axes, axes) {
          if m.route != route || m.node != node.id || m.gate != node.gate { return Err(CanonicalConflict); }
          var history := History(node.id, m.sequence);
          if history !in files || files[history] != IsMarker(m) { return Err(CanonicalHistoryConflict); }
          return Ok(m);
        }
      }
      var sequence := NextMarkerSequence(node.id);
      NextIsFree(Now(), node.id);
      var m := NewMarker(route, node, e, axes, sequence);
      // Under the node's lock the number is free, so the first attempt to create the entry succeeds.
      var ok := WriteOnce(History(node.id, sequence), IsMarker(m));
      assert ok;
      AtomicWrite(path, IsMarker(m));
      ghost var writes := WriteMarker(old(Now()), route, node, e, axes).writes;
      assert writes == [Create(History(node.id, sequence), IsMarker(m)), Replace(path, IsMarker(m))];
      ApplyTwo(old(Now()), writes);
      r := Ok(m);
    }

    method LinkAttempt(route: Route, node: NodeId, attempt: Attempt, m: Marker) returns (r: Result<Marker, MarkerError>)
      modifies this
      ensures r == LinkWrites(old(Now()), route, node, attempt, m).result
      ensures Wrote(LinkWrites(old(Now()), route, node, attempt, m).writes)
    {
      var path := AttemptLink(node, SafeName(attempt));
      var link := IsLink(LinkFor(route, node, attempt, m));
      var ok := WriteOnce(path, link);
      if !ok { return Err(LinkRefused); }
      if Canonical(node) !in files {
        ghost var create := LinkWrites(old(Now()), route, node, attempt, m).writes;
        if |create| == 1 { ApplyOne(old(Now()), create); }
        return Err(NoCanonical);
      }
      if files[Canonical(node)] == IsMarker(m) {
        AtomicWrite(NodeLink(node), link);
      }
      ghost var o := LinkWrites(old(Now()), route, node, attempt, m);
      if |o.writes| == 1 { ApplyOne(old(Now()), o.writes); }
      if |o.writes| == 2 { ApplyTwo(old(Now()), o.writes); }
      r := Ok(m);
    }

    method PublishCompletion(route: Route, node: NodeInfo, e: Evidence, attempt: Option<Attempt>, meta: Option<Meta>, needLink: bool)
      returns (r: Result<Marker, MarkerError>)
      modifies this
      ensures r == Publish(old(Now()), route, node, e, attempt, meta, needLink).result
      ensures Wrote(Publish(old(Now()), route, node, e, attempt, meta, needLink).writes)
    {
      var axes := MarkerAxes(node, attempt, meta);
      if axes.Err? { return Err(axes.error); }
      if Named(attempt) && AttemptLink(node.id, SafeName(attempt.value)) in files {
        r := Republish(route, node, e, attempt.value, axes.value);
      } else if needLink {
        r := Err(NoLink);
      } else if !Named(attempt) {
        r := WriteCompletionMarker(route, node, e, axes.value);
      } else {
        r := PublishNew(route, node, e, attempt.value, axes.value);
      }
    }

    /** Gives back the marker of an existing link. */
    method Republish(route: Route, node: NodeInfo, e: Evidence, attempt: Attempt, axes: Axes) returns (r: Result<Marker, MarkerError>)
      requires AttemptLink(node.id, SafeName(attempt)) in files
      modifies this
      ensures var found := LinkedMarker(old(Now()), route, node, e, attempt, axes, old(files)[AttemptLink(node.id, SafeName(attempt))]);
              if found.Err? then r == Err(found.error) && Wrote([])
              else
                var o := LinkWrites(old(Now()), route, node.id, attempt, found.value);
                r == o.result && Wrote(o.writes)
    {
      var found := LinkedMarker(Now(), route, node, e, attempt, axes, files[AttemptLink(node.id, SafeName(attempt))]);
      if found.Err? { return Err(found.error); }
      r := LinkAttempt(route, node.id, attempt, found.value);
    }

    /** Finds or writes the marker, then links the attempt to it. */
    method PublishNew(route: Route, node: NodeInfo, e: Evidence, attempt: Attempt, axes: Axes) returns (r: Result<Marker, MarkerError>)
      modifies this
      ensures var w := WriteMarker(old(Now()), route, node, e, axes);
              if w.result.Err? then r == w.result && Wrote(w.writes)
              else
                var o := LinkWrites(ApplyAll(old(Now()), w.writes), route, node.id, attempt, w.result.value);
                r == o.result && Wrote(w.writes + o.writes)
    {
      r := WriteCompletionMarker(route, node, e, axes);
      if r.Err? { return; }
      ghost var first := WriteMarker(old(Now()), route, node, e, axes);
      ghost var second := LinkWrites(Now(), route, node.id, attempt, r.value);
      r := LinkAttempt(route, node.id, attempt, r.value);
      ApplyAllJoin(old(Now()), first.writes, second.writes);
    }

    method FindRow(attempt: Attempt) returns (k: nat)
      ensures k == RowOf(rows, attempt, 0)
    {
      k := 0;
      while k < |rows| && !(rows[k].wellFormed && rows[k].attempt == Some(attempt))
        invariant k <= |rows| && RowOf(rows, attempt, k) == RowOf(rows, attempt, 0)
      {
        k := k + 1;
      }
    }

    /** Publishes for the row of the attempt and closes or marks that row. */
    method CompleteRow(route: Route, c: Call, k: nat) returns (r: Result<(Marker, Status), MarkerError>)
      requires k < |rows|
      modifies this
      ensures r == MarkerModel.CompleteRow(old(Now()), route, c, k).result
      ensures Wrote(MarkerModel.CompleteRow(old(Now()), route, c, k).writes)
    {
      var row := rows[k];
      var error := RowError(route, c, row);
      if error.Some? { return Err(error.value); }
      var eligible := MarkerEligible(row);
      var closed := row.status == Done && !eligible;
      ghost var o := Publish(Now(), route, c.node, c.evidence, c.attempt, Some(row.meta), closed);
      PublishKeepsRows(Now(), route, c.node, c.evidence, c.attempt, Some(row.meta), closed);
      var m := PublishCompletion(route, c.node, c.evidence, c.attempt, Some(row.meta), closed);
      if m.Err? { return Err(m.error); }
      if closed { return Ok((m.value, AlreadyClosed)); }
      var marked := ClosedRow(row, History(c.node.id, m.value.sequence));
      rows := rows[k := marked];
      trace := trace + [EditRow(k, marked)];
      ApplyAllJoin(old(Now()), o.writes, [EditRow(k, marked)]);
      r := Ok((m.value, if eligible then MarkerAppended else Closed));
    }

    /** One completion, from its preconditions to the row it closes. */
    method CompleteNode(route: Route, c: Call) returns (r: Result<(Marker, Status), MarkerError>)
      modifies this
      ensures r == Complete(old(Now()), route, c).result
      ensures Wrote(Complete(old(Now()), route, c).writes)
    {
      if c.registry && !Named(c.attempt) { return Err(MissingAttempt); }
      if !c.registry && Named(c.attempt) && c.explicit.None? { return Err(MissingMetadata); }
      if !c.registry && c.explicit.Some? && !Named(c.attempt) { return Err(MissingAttempt); }
      if !c.registry {
        var m := PublishCompletion(route, c.node, c.evidence, c.attempt, c.explicit, false);
        if m.Err? { return Err(m.error); }
        return Ok((m.value, if Named(c.attempt) then Unregistered else NoAttempt));
      }
      if !c.writable {
        var e := PublishUnclosed(route, c, RowCloseFailed);
        return Err(e);
      }
      var k := FindRow(c.attempt.value);
      if k == |rows| {
        var e := PublishUnclosed(route, c, RowAbsent);
        return Err(e);
      }
      r := CompleteRow(route, c, k);
    }

    /** Publishes under explicit metadata where no row can be closed; the call fails either way. */
    method PublishUnclosed(route: Route, c: Call, error: MarkerError) returns (e: MarkerError)
      modifies this
      ensures e == if c.explicit.Some? && PublishExplicit(old(Now()), route, c).result.Err?
                   then PublishExplicit(old(Now()), route, c).result.error else error
      ensures Wrote(PublishExplicit(old(Now()), route, c).writes)
    {
      e := error;
      if c.explicit.Some? {
        var m := PublishCompletion(route, c.node, c.evidence, c.attempt, c.explicit, false);
        if m.Err? { e := m.error; }
      }
    }
  }
}
