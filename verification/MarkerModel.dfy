/** Completion markers: what one completion call reads, writes and answers.

    A call is a list of writes, each of which is atomic on disk; a crash keeps a prefix of them. */
module MarkerModel {
  import opened Prelude

  type NodeId = string
  type Attempt = string
  type Digest = string

  datatype Route = Route(routeId: string, routeHash: string, registryDigest: string)
  datatype Evidence = Evidence(path: string, digest: Digest)

  /** Identity of an owner chain whose sub-sessions completed together. */
  datatype Chain = Chain(manifest: string, manifestDigest: Digest, session: string)

  datatype Axes = Axes(
    attempt: Option<Attempt>,
    depth: Option<nat>,
    transport: Option<string>,
    surface: Option<string>,
    registered: bool,
    hop: Option<string>,
    chain: Option<Chain>)

  datatype Marker = Marker(route: Route, node: NodeId, axes: Axes, gate: string, evidence: Evidence, sequence: nat)

  /** The immutable link of one attempt; it has no room for an owner chain. */
  datatype Link = Link(routeId: string, node: NodeId, axes: Axes, digest: Digest, history: Path)

  /** Files of a route's completion directory; `safe` is the file-name form of an attempt id. */
  datatype Path =
    | Canonical(node: NodeId)
    | History(node: NodeId, sequence: nat)
    | AttemptLink(node: NodeId, safe: string)
    | NodeLink(node: NodeId)

  datatype File = IsMarker(marker: Marker) | IsLink(link: Link)

  datatype RowStatus = Open | Running | Done | OtherStatus

  /** Attempt metadata; `valid` is the verdict of the dispatch contract on it. */
  datatype Meta = Meta(
    chain: Option<Chain>,
    depth: nat,
    transport: string,
    surface: string,
    registered: bool,
    hop: string,
    valid: bool)

  /** A registry row; a repeated key counts with its last value. */
  datatype Row = Row(
    wellFormed: bool,
    status: RowStatus,
    attempt: Option<Attempt>,
    routeId: string,
    routeHash: string,
    routeNode: NodeId,
    subsession: bool,
    note: Option<string>,
    failure: Option<string>,
    meta: Meta,
    marker: Option<Path>)

  datatype Disk = Disk(files: map<Path, File>, rows: seq<Row>)

  datatype Write = Create(path: Path, file: File) | Replace(path: Path, file: File) | EditRow(index: nat, row: Row)

  datatype NodeInfo = NodeInfo(id: NodeId, gate: string, detached: bool, depth: nat, inline: bool)

  datatype Call = Call(
    node: NodeInfo,
    evidence: Evidence,
    registry: bool,
    writable: bool,
    attempt: Option<Attempt>,
    explicit: Option<Meta>)

  datatype Status = Unregistered | AlreadyClosed | Closed | MarkerAppended | NoAttempt

  datatype MarkerError =
    | MissingAttempt | MissingMetadata | BadAxes | CanonicalConflict | CanonicalHistoryConflict | LinkDiffers | HistoryMissing
    | HistoryDiffers | HistoryPathDiffers | StaticDiffers | NoLink | LinkRefused | NoCanonical | RowCloseFailed | RowAbsent
    | RowInvalid | Subsession | RouteMismatch | ExplicitDiffers | RowTerminal | TerminalWithoutCompletion

  datatype Outcome<T> = Outcome(writes: seq<Write>, result: Result<T, MarkerError>)

  /* ---- Writes ---- */

  function Apply(d: Disk, w: Write): Disk {
    match w
    case Create(path, file) => d.(files := d.files[path := file])
    case Replace(path, file) => d.(files := d.files[path := file])
    case EditRow(index, row) => if index < |d.rows| then d.(rows := d.rows[index := row]) else d
  }

  function ApplyAll(d: Disk, writes: seq<Write>): Disk
    decreases |writes|
  {
    if writes == [] then d else ApplyAll(Apply(d, writes[0]), writes[1..])
  }

  /** Letters and digits outside ASCII. Nothing is known of this set, so whatever is proved holds for
      any choice of it. */
  const OTHER_LETTERS: set<char>

  predicate KeptChar(c: char) {
    if c as int < 128 then 'a' <= c <= 'z' || 'A' <= c <= 'Z' || '0' <= c <= '9' || c in "._-" else c in OTHER_LETTERS
  }

  function SafeChar(c: char): char {
    if KeptChar(c) then c else '_'
  }

  /** Characters that do not belong in a file name become underscores. */
  function SafeName(attempt: Attempt): string {
    seq(|attempt|, i requires 0 <= i < |attempt| => SafeChar(attempt[i]))
  }

  /* ---- Attempt axes ---- */

  /** An empty attempt id counts as none. */
  predicate Named(attempt: Option<Attempt>) {
    attempt.Some? && attempt.value != ""
  }

  function MarkerAxes(node: NodeInfo, attempt: Option<Attempt>, meta: Option<Meta>): Result<Axes, MarkerError> {
    if node.detached then
      if Named(attempt) || meta.Some? then Err(BadAxes) else Ok(Axes(None, None, None, None, false, None, None))
    else if meta.Some? && meta.value.chain.Some? then
      if !Named(attempt) || meta.value.chain.value.manifest == "" then Err(BadAxes)
      else Ok(Axes(attempt, Some(node.depth), Some("headless"), Some("inline"), false, Some("inline"), meta.value.chain))
    else if meta.None? then
      if node.depth != 0 || !node.inline then Err(BadAxes)
      else Ok(Axes(attempt, Some(0), Some("interactive"), Some("inline"), false, None, None))
    else
      var m := meta.value;
      if !m.valid || m.depth != node.depth then Err(BadAxes)
      else Ok(Axes(attempt, Some(m.depth), Some(m.transport), Some(m.surface), m.registered,
                   if m.hop == "" then None else Some(m.hop), None))
  }

  /** Equal on every axis the new identity carries. */
  predicate AxesMatch(existing: Axes, wanted: Axes) {
    existing.(chain := None) == wanted.(chain := None) && (wanted.chain.Some? ==> existing.chain == wanted.chain)
  }

  /* ---- Markers ---- */

  function Sequences(d: Disk, node: NodeId): set<nat> {
    set p | p in d.files && p.History? && p.node == node :: p.sequence
  }

  lemma {:induction false} HasMax(s: set<nat>)
    requires s != {}
    ensures exists x :: x in s && forall y :: y in s ==> y <= x
    decreases s
  {
    var x :| x in s;
    if s != {x} {
      HasMax(s - {x});
      var m :| m in s - {x} && forall y :: y in s - {x} ==> y <= m;
      var big := if x < m then m else x;
      forall y | y in s ensures y <= big {
        if y != x { assert y in s - {x}; }
      }
    }
  }

  function MaxOf(s: set<nat>): (m: nat)
    ensures forall x :: x in s ==> x <= m
    ensures m == 0 || m in s
  {
    if s == {} then 0
    else
      HasMax(s);
      var x :| x in s && forall y :: y in s ==> y <= x;
      x
  }

  function NextSequence(d: Disk, node: NodeId): nat {
    1 + MaxOf(Sequences(d, node))
  }

  function CanonicalOf(d: Disk, node: NodeId): Option<Marker> {
    if Canonical(node) in d.files && d.files[Canonical(node)].IsMarker? then Some(d.files[Canonical(node)].marker) else None
  }

  function NewMarker(route: Route, node: NodeInfo, e: Evidence, axes: Axes, sequence: nat): Marker {
    Marker(route, node.id, axes, node.gate, e, sequence)
  }

  /** The canonical marker again if it has the wanted identity, or a new numbered one. */
  function WriteMarker(d: Disk, route: Route, node: NodeInfo, e: Evidence, axes: Axes): Outcome<Marker> {
    var existing := CanonicalOf(d, node.id);
    if existing.Some? && existing.value.evidence.digest == e.digest && AxesMatch(existing.value.axes, axes) then
      var m := existing.value;
      if m.route != route || m.node != node.id || m.gate != node.gate then Outcome([], Err(CanonicalConflict))
      else if History(node.id, m.sequence) !in d.files || d.files[History(node.id, m.sequence)] != IsMarker(m) then
        Outcome([], Err(CanonicalHistoryConflict))
      else Outcome([], Ok(m))
    else
      var m := NewMarker(route, node, e, axes, NextSequence(d, node.id));
      Outcome([Create(History(node.id, m.sequence), IsMarker(m)), Replace(Canonical(node.id), IsMarker(m))], Ok(m))
  }

  /** The marker behind an existing link, if link, history and call agree. */
  function LinkedMarker(d: Disk, route: Route, node: NodeInfo, e: Evidence, attempt: Attempt, axes: Axes, file: File): Result<Marker, MarkerError> {
    if !file.IsLink? || file.link.routeId != route.routeId || file.link.node != node.id || file.link.axes != axes || file.link.digest != e.digest then
      Err(LinkDiffers)
    else if file.link.history !in d.files || !d.files[file.link.history].IsMarker? then Err(HistoryMissing)
    else
      var m := d.files[file.link.history].marker;
      if m.route.routeId != route.routeId || m.node != node.id || !AxesMatch(m.axes, axes) || m.evidence.digest != e.digest then
        Err(HistoryDiffers)
      else if file.link.history != History(node.id, m.sequence) then Err(HistoryPathDiffers)
      else if m.route != route || m.gate != node.gate || m.evidence.path != e.path then Err(StaticDiffers)
      else Ok(m)
  }

  /** The link written for a marker: the base axes only. */
  function LinkFor(route: Route, node: NodeId, attempt: Attempt, m: Marker): Link {
    Link(route.routeId, node, m.axes.(attempt := Some(attempt), chain := None), m.evidence.digest, History(node, m.sequence))
  }

  /** Links the attempt to its marker, and the node to the link while the marker is canonical. */
  function LinkWrites(d: Disk, route: Route, node: NodeId, attempt: Attempt, m: Marker): Outcome<Marker> {
    var path := AttemptLink(node, SafeName(attempt));
    var link := IsLink(LinkFor(route, node, attempt, m));
    if path in d.files && d.files[path] != link then Outcome([], Err(LinkRefused))
    else
      var create := if path in d.files then [] else [Create(path, link)];
      if Canonical(node) !in d.files then Outcome(create, Err(NoCanonical))
      else
        Outcome(create + (if d.files[Canonical(node)] == IsMarker(m) then [Replace(NodeLink(node), link)] else []), Ok(m))
  }

  function Publish(d: Disk, route: Route, node: NodeInfo, e: Evidence, attempt: Option<Attempt>, meta: Option<Meta>, needLink: bool): Outcome<Marker>
  {
    match MarkerAxes(node, attempt, meta)
    case Err(error) => Outcome([], Err(error))
    case Ok(axes) =>
      var path := if Named(attempt) then Some(AttemptLink(node.id, SafeName(attempt.value))) else None;
      if path.Some? && path.value in d.files then
        (match LinkedMarker(d, route, node, e, attempt.value, axes, d.files[path.value])
         case Err(error) => Outcome([], Err(error))
         case Ok(m) => LinkWrites(d, route, node.id, attempt.value, m))
      else if needLink then Outcome([], Err(NoLink))
      else
        var written := WriteMarker(d, route, node, e, axes);
        if written.result.Err? || path.None? then written
        else
          var linked := LinkWrites(ApplyAll(d, written.writes), route, node.id, attempt.value, written.result.value);
          Outcome(written.writes + linked.writes, linked.result)
  }

  /* ---- Whole calls ---- */

  /** The first well-formed row of the attempt, or the number of rows. */
  function RowOf(rows: seq<Row>, attempt: Attempt, from: nat): (k: nat)
    requires from <= |rows|
    ensures from <= k <= |rows|
    ensures k < |rows| ==> rows[k].wellFormed && rows[k].attempt == Some(attempt)
    ensures forall i :: from <= i < k ==> !(rows[i].wellFormed && rows[i].attempt == Some(attempt))
    decreases |rows| - from
  {
    if from == |rows| || (rows[from].wellFormed && rows[from].attempt == Some(attempt)) then from else RowOf(rows, attempt, from + 1)
  }

  predicate SameAxes(a: Meta, b: Meta) {
    a.depth == b.depth && a.transport == b.transport && a.surface == b.surface && a.registered == b.registered && a.hop == b.hop
  }

  /** A supervisor closed the row with a passing verdict, and no marker was published yet. */
  predicate MarkerEligible(r: Row) {
    r.status == Done && r.note == Some("completed-supervisor") && r.failure == Some("pass")
  }

  function RowError(route: Route, c: Call, r: Row): Option<MarkerError> {
    if !r.meta.valid then Some(RowInvalid)
    else if r.subsession then Some(Subsession)
    else if r.routeId != route.routeId || r.routeHash != route.routeHash || r.routeNode != c.node.id then Some(RouteMismatch)
    else if c.explicit.Some? && !SameAxes(r.meta, c.explicit.value) then Some(ExplicitDiffers)
    else if r.status == OtherStatus then Some(RowTerminal)
    else if r.status == Done && r.note != Some("completed-marker") && !MarkerEligible(r) then Some(TerminalWithoutCompletion)
    else None
  }

  function ClosedRow(r: Row, history: Path): Row {
    r.(status := Done, note := Some("completed-marker"), marker := Some(history))
  }

  function PublishExplicit(d: Disk, route: Route, c: Call): Outcome<Marker> {
    if c.explicit.None? then Outcome([], Err(MissingMetadata))
    else Publish(d, route, c.node, c.evidence, c.attempt, c.explicit, false)
  }

  function CompleteRow(d: Disk, route: Route, c: Call, k: nat): Outcome<(Marker, Status)>
    requires k < |d.rows|
  {
    var r := d.rows[k];
    var error := RowError(route, c, r);
    if error.Some? then Outcome([], Err(error.value))
    else
      var closed := r.status == Done && !MarkerEligible(r);
      var o := Publish(d, route, c.node, c.evidence, c.attempt, Some(r.meta), closed);
      match o.result
      case Err(e) => Outcome(o.writes, Err(e))
      case Ok(m) =>
        if closed then Outcome(o.writes, Ok((m, AlreadyClosed)))
        else
          Outcome(o.writes + [EditRow(k, ClosedRow(r, History(c.node.id, m.sequence)))],
                  Ok((m, if MarkerEligible(r) then MarkerAppended else Closed)))
  }

  function Complete(d: Disk, route: Route, c: Call): Outcome<(Marker, Status)> {
    if c.registry && !Named(c.attempt) then Outcome([], Err(MissingAttempt))
    else if !c.registry && Named(c.attempt) && c.explicit.None? then Outcome([], Err(MissingMetadata))
    else if !c.registry && c.explicit.Some? && !Named(c.attempt) then Outcome([], Err(MissingAttempt))
    else if !c.registry then
      var o := Publish(d, route, c.node, c.evidence, c.attempt, c.explicit, false);
      match o.result
      case Err(e) => Outcome(o.writes, Err(e))
      case Ok(m) => Outcome(o.writes, Ok((m, if Named(c.attempt) then Unregistered else NoAttempt)))
    else if !c.writable then
      var o := PublishExplicit(d, route, c);
      Outcome(o.writes, Err(if c.explicit.Some? && o.result.Err? then o.result.error else RowCloseFailed))
    else
      var k := RowOf(d.rows, c.attempt.value, 0);
      if k == |d.rows| then
        var o := PublishExplicit(d, route, c);
        Outcome(o.writes, Err(if c.explicit.Some? && o.result.Err? then o.result.error else RowAbsent))
      else CompleteRow(d, route, c, k)
  }
}
