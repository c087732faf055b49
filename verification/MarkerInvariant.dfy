/** What every run of completion calls, with crashes between any two writes, keeps on disk. */
module MarkerInvariant {
  import opened Prelude
  import opened MarkerModel

  /* ---- The invariant ---- */

  /** A history entry carries its own number, and all smaller numbers are taken, too. */
  predicate HistoryFine(d: Disk, node: NodeId, n: nat) {
    History(node, n) in d.files ==>
      && n >= 1 && d.files[History(node, n)].IsMarker?
      && d.files[History(node, n)].marker.node == node && d.files[History(node, n)].marker.sequence == n
      && forall k :: 1 <= k <= n ==> History(node, k) in d.files
  }

  /** The canonical marker is one of the numbered ones. */
  predicate CanonicalFine(d: Disk, node: NodeId) {
    Canonical(node) in d.files ==>
      && d.files[Canonical(node)].IsMarker?
      && var m := d.files[Canonical(node)].marker;
         m.node == node && History(node, m.sequence) in d.files && d.files[History(node, m.sequence)] == IsMarker(m)
  }

  /** A link points at the numbered marker of its own attempt and repeats its digest. */
  predicate LinkFits(d: Disk, node: NodeId, safe: string, l: Link) {
    && l.node == node && l.axes.attempt.Some? && SafeName(l.axes.attempt.value) == safe && l.axes.chain.None?
    && l.history.History? && l.history.node == node && l.history in d.files && d.files[l.history].IsMarker?
    && Canonical(node) in d.files
    && var m := d.files[l.history].marker;
       m.evidence.digest == l.digest && m.axes.(chain := None) == l.axes && m.route.routeId == l.routeId
  }

  predicate LinkFine(d: Disk, node: NodeId, safe: string) {
    AttemptLink(node, safe) in d.files ==> d.files[AttemptLink(node, safe)].IsLink? && LinkFits(d, node, safe, d.files[AttemptLink(node, safe)].link)
  }

  /** The node's link is the link of some attempt. */
  predicate NodeLinkFine(d: Disk, node: NodeId) {
    NodeLink(node) in d.files ==>
      && d.files[NodeLink(node)].IsLink? && d.files[NodeLink(node)].link.axes.attempt.Some?
      && var path := AttemptLink(node, SafeName(d.files[NodeLink(node)].link.axes.attempt.value));
         path in d.files && d.files[path] == d.files[NodeLink(node)]
  }

  ghost predicate Inv(d: Disk) {
    && (forall node, n {:trigger HistoryFine(d, node, n)} :: HistoryFine(d, node, n))
    && (forall node {:trigger CanonicalFine(d, node)} :: CanonicalFine(d, node))
    && (forall node, safe {:trigger LinkFine(d, node, safe)} :: LinkFine(d, node, safe))
    && (forall node {:trigger NodeLinkFine(d, node)} :: NodeLinkFine(d, node))
  }

  /* ---- Legal writes ---- */

  /** History entries and attempt links are only ever created, in places that were free. */
  predicate Kept(d: Disk, w: Write) {
    match w
    case Create(path, _) => path !in d.files && (path.History? || path.AttemptLink?)
    case Replace(path, _) => path.Canonical? || path.NodeLink?
    case EditRow(_, _) => true
  }

  /** What one write may do, whatever call it belongs to. */
  ghost predicate LegalWrite(d: Disk, w: Write) {
    Kept(d, w) &&
    match w
    case Create(History(node, n), file) =>
      n == NextSequence(d, node) && file.IsMarker? && file.marker.node == node && file.marker.sequence == n
    case Replace(Canonical(node), file) =>
      file.IsMarker? && file.marker.node == node && History(node, file.marker.sequence) in d.files
      && d.files[History(node, file.marker.sequence)] == file
    case Create(AttemptLink(node, safe), file) => file.IsLink? && LinkFits(d, node, safe, file.link)
    case Replace(NodeLink(node), file) =>
      && file.IsLink? && file.link.axes.attempt.Some?
      && var path := AttemptLink(node, SafeName(file.link.axes.attempt.value)); path in d.files && d.files[path] == file
    case _ => true
  }

  ghost predicate LegalWrites(d: Disk, writes: seq<Write>)
    decreases |writes|
  {
    writes == [] || (LegalWrite(d, writes[0]) && LegalWrites(Apply(d, writes[0]), writes[1..]))
  }

  /** Nothing immutable changed. */
  ghost predicate Grown(d: Disk, e: Disk) {
    forall path :: path in d.files && (path.History? || path.AttemptLink?) ==> path in e.files && e.files[path] == d.files[path]
  }

  lemma NextIsFree(d: Disk, node: NodeId)
    ensures History(node, NextSequence(d, node)) !in d.files
    ensures forall n: nat :: History(node, n) in d.files ==> n < NextSequence(d, node)
  {
    forall n: nat | History(node, n) in d.files ensures n < NextSequence(d, node) {
      assert History(node, n).sequence in Sequences(d, node);
    }
  }

  lemma AllBelowNextTaken(d: Disk, node: NodeId)
    requires Inv(d)
    ensures forall k :: 1 <= k < NextSequence(d, node) ==> History(node, k) in d.files
  {
    var m := MaxOf(Sequences(d, node));
    if m != 0 {
      var p :| p in d.files && p.History? && p.node == node && p.sequence == m;
      assert p == History(node, m);
      assert HistoryFine(d, node, m);
    }
  }

  lemma WriteKeeps(d: Disk, w: Write)
    requires Kept(d, w)
    ensures Grown(d, Apply(d, w))
  {
  }

  lemma LinkFitsLater(d: Disk, e: Disk, node: NodeId, safe: string, l: Link)
    requires LinkFits(d, node, safe, l) && Grown(d, e) && (Canonical(node) in d.files ==> Canonical(node) in e.files)
    ensures LinkFits(e, node, safe, l)
  {
  }

  lemma HistoryAfter(d: Disk, w: Write, node: NodeId, n: nat)
    requires Inv(d) && LegalWrite(d, w)
    ensures HistoryFine(Apply(d, w), node, n)
  {
    var e := Apply(d, w);
    assert HistoryFine(d, node, n);
    WriteKeeps(d, w);
    if History(node, n) in e.files && History(node, n) !in d.files {
      AllBelowNextTaken(d, node);
    }
  }

  lemma CanonicalAfter(d: Disk, w: Write, node: NodeId)
    requires Inv(d) && LegalWrite(d, w)
    ensures CanonicalFine(Apply(d, w), node)
  {
    assert CanonicalFine(d, node);
    WriteKeeps(d, w);
  }

  lemma LinkAfter(d: Disk, w: Write, node: NodeId, safe: string)
    requires Inv(d) && LegalWrite(d, w)
    ensures LinkFine(Apply(d, w), node, safe)
  {
    var e := Apply(d, w);
    assert LinkFine(d, node, safe);
    WriteKeeps(d, w);
    if AttemptLink(node, safe) in e.files {
      LinkFitsLater(d, e, node, safe, e.files[AttemptLink(node, safe)].link);
    }
  }

  lemma NodeLinkAfter(d: Disk, w: Write, node: NodeId)
    requires Inv(d) && LegalWrite(d, w)
    ensures NodeLinkFine(Apply(d, w), node)
  {
    assert NodeLinkFine(d, node);
    WriteKeeps(d, w);
  }

  lemma WriteInv(d: Disk, w: Write)
    requires Inv(d) && LegalWrite(d, w)
    ensures Inv(Apply(d, w)) && Grown(d, Apply(d, w))
  {
    var e := Apply(d, w);
    forall node, n ensures HistoryFine(e, node, n) { HistoryAfter(d, w, node, n); }
    forall node ensures CanonicalFine(e, node) { CanonicalAfter(d, w, node); }
    forall node, safe ensures LinkFine(e, node, safe) { LinkAfter(d, w, node, safe); }
    forall node ensures NodeLinkFine(e, node) { NodeLinkAfter(d, w, node); }
    WriteKeeps(d, w);
  }

  /** Whatever prefix of legal writes reached the disk, the invariant holds and nothing immutable changed. */
  lemma {:induction false} CrashInv(d: Disk, writes: seq<Write>, k: nat)
    requires Inv(d) && LegalWrites(d, writes) && k <= |writes|
    ensures Inv(ApplyAll(d, writes[..k])) && Grown(d, ApplyAll(d, writes[..k]))
    decreases |writes|
  {
    if k > 0 {
      WriteInv(d, writes[0]);
      CrashInv(Apply(d, writes[0]), writes[1..], k - 1);
      assert writes[..k][1..] == writes[1..][..k - 1];
    }
  }

  lemma {:induction false} LegalJoin(d: Disk, a: seq<Write>, b: seq<Write>)
    requires LegalWrites(d, a) && LegalWrites(ApplyAll(d, a), b)
    ensures LegalWrites(d, a + b) && ApplyAll(d, a + b) == ApplyAll(ApplyAll(d, a), b)
    decreases |a|
  {
    if a == [] {
      assert [] + b == b;
    } else {
      assert (a + b)[0] == a[0] && (a + b)[1..] == a[1..] + b;
      LegalJoin(Apply(d, a[0]), a[1..], b);
    }
  }

  lemma ApplyOne(d: Disk, writes: seq<Write>)
    requires |writes| == 1
    ensures ApplyAll(d, writes) == Apply(d, writes[0])
    ensures LegalWrites(d, writes) <==> LegalWrite(d, writes[0])
  {
    assert writes[1..] == [];
  }

  lemma ApplyTwo(d: Disk, writes: seq<Write>)
    requires |writes| == 2
    ensures ApplyAll(d, writes) == Apply(Apply(d, writes[0]), writes[1])
    ensures LegalWrites(d, writes) <==> LegalWrite(d, writes[0]) && LegalWrite(Apply(d, writes[0]), writes[1])
  {
    ApplyOne(Apply(d, writes[0]), writes[1..]);
  }

  /* ---- Every call writes legally ---- */

  /** A marker and where it came from: the numbered history entry of its node. */
  predicate Numbered(d: Disk, node: NodeId, m: Marker) {
    m.node == node && History(node, m.sequence) in d.files && d.files[History(node, m.sequence)] == IsMarker(m)
  }

  lemma WriteMarkerLegal(d: Disk, route: Route, node: NodeInfo, e: Evidence, axes: Axes)
    requires Inv(d)
    ensures var o := WriteMarker(d, route, node, e, axes);
            && LegalWrites(d, o.writes)
            && (o.result.Ok? ==>
                  var after := ApplyAll(d, o.writes);
                  && Numbered(after, node.id, o.result.value) && CanonicalOf(after, node.id) == Some(o.result.value)
                  && o.result.value.evidence.digest == e.digest && AxesMatch(o.result.value.axes, axes)
                  && o.result.value.route == route && o.result.value.gate == node.gate)
  {
    var o := WriteMarker(d, route, node, e, axes);
    assert CanonicalFine(d, node.id);
    if o.writes != [] {
      NextIsFree(d, node.id);
      var first := Apply(d, o.writes[0]);
      assert LegalWrite(d, o.writes[0]);
      assert LegalWrite(first, o.writes[1]);
      ApplyTwo(d, o.writes);
    }
  }

  lemma LinkWritesLegal(d: Disk, route: Route, node: NodeId, attempt: Attempt, m: Marker)
    requires Inv(d) && Numbered(d, node, m) && Canonical(node) in d.files
    requires m.axes.attempt == Some(attempt) && m.route.routeId == route.routeId
    ensures var o := LinkWrites(d, route, node, attempt, m);
            && LegalWrites(d, o.writes)
            && (o.result.Ok? ==> o.result.value == m && AttemptLink(node, SafeName(attempt)) in ApplyAll(d, o.writes).files
                                 && ApplyAll(d, o.writes).files[AttemptLink(node, SafeName(attempt))] == IsLink(LinkFor(route, node, attempt, m)))
            && ApplyAll(d, o.writes).rows == d.rows
  {
    var o := LinkWrites(d, route, node, attempt, m);
    var path := AttemptLink(node, SafeName(attempt));
    var link := LinkFor(route, node, attempt, m);
    assert LinkFits(d, node, SafeName(attempt), link);
    if o.writes != [] {
      var first := Apply(d, o.writes[0]);
      assert LegalWrite(d, o.writes[0]);
      if |o.writes| == 2 {
        assert LegalWrite(first, o.writes[1]);
        ApplyTwo(d, o.writes);
      } else {
        ApplyOne(d, o.writes);
      }
    }
  }
}
