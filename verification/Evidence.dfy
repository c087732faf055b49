/** Checked launch evidence: normalization of eligibility rows and the fallback chain built from them. */
module Evidence {
  import opened Prelude

  datatype Field =
    | ParentHarness | ParentTransport | ParentSandbox | ChildHarness | LaunchAuthority | Status
    | ProbeSource | ProbeTime | FailureClass | BrokerRoot | BrokerInstance | Extra(name: string)

  /** One row as it was handed in or sealed; only present fields are mapped. */
  type Row = map<Field, string>

  const NESTED_FIELDS: set<Field> :=
    {ParentHarness, ParentTransport, ParentSandbox, ChildHarness, LaunchAuthority, Status, ProbeSource, ProbeTime, FailureClass}

  const STATUSES := {"supported", "unsupported", "unknown"}
  const TRANSPORTS := {"interactive", "headless"}

  datatype EvidenceError =
    | NoTuples | FieldsMissing | InvalidStatus | InvalidAuthority | Unchecked | NotConductor | InvalidTransport
    | UnknownParent | UnknownChild | TransportMismatch | UnknownSandbox | BrokerFieldsPresent
    | InvalidNative | NoDirectTuple | NoConsumer | DepthMismatch | HeadlessUnavailable

  function Sandboxes(harness: string): set<string> {
    if harness == "claude" || harness == "opencode" then {"adapter-default"}
    else if harness == "codex" then {"workspace-write", "danger-full-access", "read-only"}
    else {}
  }

  predicate Wrapped(harness: string) {
    harness in {"claude", "codex", "opencode"}
  }

  function TransportAt(depth: nat): string {
    if depth == 0 then "interactive" else "headless"
  }

  predicate Present(row: Row, f: Field) {
    f in row && row[f] != ""
  }

  function Restrict(row: Row): Row {
    map f | f in row && f in NESTED_FIELDS :: row[f]
  }

  /** The first rule of the current contract version that a row breaks. */
  function RowError(row: Row, parentDepth: nat): Option<EvidenceError> {
    if !(NESTED_FIELDS <= row.Keys) then Some(FieldsMissing)
    else if row[Status] !in STATUSES then Some(InvalidStatus)
    else if row[LaunchAuthority] !in {"conductor", "ancestor-broker"} then Some(InvalidAuthority)
    else if row[ProbeSource] == "" || row[ProbeTime] == "" then Some(Unchecked)
    else if row[LaunchAuthority] != "conductor" then Some(NotConductor)
    else if row[ParentTransport] !in TRANSPORTS then Some(InvalidTransport)
    else if !Wrapped(row[ParentHarness]) then Some(UnknownParent)
    else if !Wrapped(row[ChildHarness]) then Some(UnknownChild)
    else if row[ParentTransport] != TransportAt(parentDepth) then Some(TransportMismatch)
    else if row[ParentSandbox] !in Sandboxes(row[ParentHarness]) then Some(UnknownSandbox)
    else if Present(row, BrokerRoot) || Present(row, BrokerInstance) then Some(BrokerFieldsPresent)
    else None
  }

  function NormalizeRows(rows: seq<Row>, parentDepth: nat): Result<seq<Row>, EvidenceError> {
    if rows == [] then Ok([])
    else
      match RowError(rows[0], parentDepth)
      case Some(e) => Err(e)
      case None =>
        match NormalizeRows(rows[1..], parentDepth)
        case Err(e) => Err(e)
        case Ok(rest) => Ok([Restrict(rows[0])] + rest)
  }

  datatype NativeField = Harness | Transport | Surface | Registered | NativeStatus | CheckSource | NativeExtra(name: string)
  datatype Value = Text(text: string) | Flag(flag: bool)
  type NativeRow = map<NativeField, Value>

  const NATIVE_FIELDS: set<NativeField> := {Harness, Transport, Surface, Registered, NativeStatus, CheckSource}

  function NativeSurface(harness: Value): Option<Value> {
    if harness == Text("codex") then Some(Text("codex-native-subagent"))
    else if harness == Text("claude") then Some(Text("claude-subagent"))
    else None
  }

  predicate NativeFine(row: NativeRow) {
    && NATIVE_FIELDS <= row.Keys
    && row[NativeStatus] in {Text("supported"), Text("unsupported"), Text("unknown")}
    && NativeSurface(row[Harness]) == Some(row[Surface])
    && row[Transport] == Text("headless") && row[Registered] == Flag(false)
    && row[CheckSource] !in {Text(""), Flag(false)}
  }

  function RestrictNative(row: NativeRow): NativeRow {
    map f | f in row && f in NATIVE_FIELDS :: row[f]
  }

  function NormalizeNative(rows: seq<NativeRow>): Result<seq<NativeRow>, EvidenceError> {
    if rows == [] then Ok([])
    else if !NativeFine(rows[0]) then Err(InvalidNative)
    else
      match NormalizeNative(rows[1..])
      case Err(e) => Err(e)
      case Ok(rest) => Ok([RestrictNative(rows[0])] + rest)
  }

  datatype Checked = Checked(tuples: seq<Row>, native: seq<NativeRow>)

  function Normalize(e: Checked, parentDepth: nat): Result<Checked, EvidenceError> {
    if e.tuples == [] then Err(NoTuples)
    else
      match NormalizeRows(e.tuples, parentDepth)
      case Err(error) => Err(error)
      case Ok(tuples) =>
        match NormalizeNative(e.native)
        case Err(error) => Err(error)
        case Ok(native) => Ok(Checked(tuples, native))
  }

  /* ---- Sealed evidence is its own normal form ---- */

  lemma RestrictKeepsVerdict(row: Row, parentDepth: nat)
    requires RowError(row, parentDepth).None?
    ensures RowError(Restrict(row), parentDepth).None? && Restrict(Restrict(row)) == Restrict(row)
  {
    var kept := Restrict(row);
    assert forall f :: f in NESTED_FIELDS ==> f in kept && kept[f] == row[f];
  }

  lemma {:induction false} RowsStable(rows: seq<Row>, parentDepth: nat)
    requires NormalizeRows(rows, parentDepth).Ok?
    ensures var kept := NormalizeRows(rows, parentDepth).value;
            && |kept| == |rows| && NormalizeRows(kept, parentDepth) == Ok(kept)
            && forall i :: 0 <= i < |rows| ==> kept[i] == Restrict(rows[i]) && RowError(kept[i], parentDepth).None?
  {
    if rows != [] {
      RowsStable(rows[1..], parentDepth);
      RestrictKeepsVerdict(rows[0], parentDepth);
      var kept := NormalizeRows(rows, parentDepth).value;
      assert kept[1..] == NormalizeRows(rows[1..], parentDepth).value;
    }
  }

  lemma {:induction false} NativeStable(rows: seq<NativeRow>)
    requires NormalizeNative(rows).Ok?
    ensures NormalizeNative(NormalizeNative(rows).value) == NormalizeNative(rows)
  {
    if rows != [] {
      NativeStable(rows[1..]);
      var kept := NormalizeNative(rows).value;
      assert kept[1..] == NormalizeNative(rows[1..]).value;
      assert RestrictNative(RestrictNative(rows[0])) == RestrictNative(rows[0]);
    }
  }

  /** Sealing evidence again changes nothing. */
  lemma NormalizeIdempotent(e: Checked, parentDepth: nat)
    requires Normalize(e, parentDepth).Ok?
    ensures Normalize(Normalize(e, parentDepth).value, parentDepth) == Normalize(e, parentDepth)
  {
    RowsStable(e.tuples, parentDepth);
    NativeStable(e.native);
  }

  /* ---- The fallback chain ---- */

  datatype HopName = SameHarness | CrossHarness | NativeSubagent | Inline

  datatype Hop = Hop(ordinal: nat, name: HopName, candidates: seq<Row>, native: seq<NativeRow>)

  const FALLBACK_ORDER := [SameHarness, CrossHarness, NativeSubagent, Inline]

  predicate SameSide(row: Row) {
    ChildHarness in row && ParentHarness in row && row[ChildHarness] == row[ParentHarness]
  }

  function Side(rows: seq<Row>, same: bool): (r: seq<Row>)
    ensures forall row :: row in r <==> row in rows && SameSide(row) == same
  {
    if rows == [] then []
    else (if SameSide(rows[0]) == same then [rows[0]] else []) + Side(rows[1..], same)
  }

  predicate Supported(row: Row) {
    Status in row && row[Status] == "supported" && LaunchAuthority in row && row[LaunchAuthority] == "conductor"
  }

  predicate AnySupported(rows: seq<Row>) {
    exists i :: 0 <= i < |rows| && Supported(rows[i])
  }

  function FallbackChain(e: Checked, parentDepth: nat): Result<seq<Hop>, EvidenceError> {
    match Normalize(e, parentDepth)
    case Err(error) => Err(error)
    case Ok(kept) =>
      var same, cross := Side(kept.tuples, true), Side(kept.tuples, false);
      if !AnySupported(same + cross) then Err(NoDirectTuple)
      else Ok([Hop(1, SameHarness, same, []), Hop(2, CrossHarness, cross, []),
               Hop(3, NativeSubagent, [], kept.native), Hop(4, Inline, [], [])])
  }

  /** Some candidate can be launched, and none names a retired broker. */
  predicate CandidatesFine(candidates: seq<Row>) {
    && AnySupported(candidates)
    && forall i :: 0 <= i < |candidates| ==> NoBroker(candidates[i])
  }

  predicate NoBroker(row: Row) {
    !Present(row, BrokerRoot) && !Present(row, BrokerInstance)
  }

  /** What the verifier asks of the chain on a node. */
  predicate ChainFine(hops: seq<Hop>) {
    && |hops| == 4
    && [hops[0].name, hops[1].name, hops[2].name, hops[3].name] == FALLBACK_ORDER
    && CandidatesFine(hops[0].candidates + hops[1].candidates)
  }

  /** The chain of sealed evidence is reproduced from it and passes the verifier; it holds each
      checked row exactly once, on its own side, and none for a retired broker. */
  lemma ChainReproduced(e: Checked, parentDepth: nat)
    requires FallbackChain(e, parentDepth).Ok?
    ensures Normalize(e, parentDepth).Ok?
    ensures FallbackChain(Normalize(e, parentDepth).value, parentDepth) == FallbackChain(e, parentDepth)
    ensures ChainFine(FallbackChain(e, parentDepth).value)
  {
    NormalizeIdempotent(e, parentDepth);
    RowsStable(e.tuples, parentDepth);
    var kept := Normalize(e, parentDepth).value;
    assert Normalize(kept, parentDepth) == Ok(kept);
    SidesClean(kept.tuples, parentDepth);
  }

  lemma CheckedHasNoBroker(row: Row, parentDepth: nat)
    requires RowError(row, parentDepth).None?
    ensures NoBroker(row)
  {
  }

  /** Checked rows name no retired broker, on whichever side they are. */
  lemma SidesClean(rows: seq<Row>, parentDepth: nat)
    requires forall i :: 0 <= i < |rows| ==> RowError(rows[i], parentDepth).None?
    ensures AnySupported(Side(rows, true) + Side(rows, false)) ==> CandidatesFine(Side(rows, true) + Side(rows, false))
  {
    forall row | row in rows ensures NoBroker(row) {
      var i :| 0 <= i < |rows| && rows[i] == row;
      CheckedHasNoBroker(rows[i], parentDepth);
    }
    BothSidesClean(rows);
  }

  lemma BothSidesClean(rows: seq<Row>)
    requires forall row :: row in rows ==> NoBroker(row)
    ensures var candidates := Side(rows, true) + Side(rows, false); forall i :: 0 <= i < |candidates| ==> NoBroker(candidates[i])
  {
    var candidates := Side(rows, true) + Side(rows, false);
    forall i | 0 <= i < |candidates| ensures NoBroker(candidates[i]) { assert candidates[i] in rows; }
  }

  lemma {:induction false} SidesPartition(rows: seq<Row>)
    ensures multiset(Side(rows, true)) + multiset(Side(rows, false)) == multiset(rows)
  {
    if rows != [] {
      SidesPartition(rows[1..]);
      assert rows == [rows[0]] + rows[1..];
    }
  }

  /* ---- Evidence for the quick tier ---- */

  datatype HeadlessField = HHarness | HTransport | HSurface | HStatus | HSource | HTime | HExtra(name: string)
  type HeadlessRow = map<HeadlessField, string>

  const HEADLESS_FIELDS: set<HeadlessField> := {HHarness, HTransport, HSurface, HStatus, HSource, HTime}

  predicate HeadlessFine(row: HeadlessRow) {
    && HEADLESS_FIELDS <= row.Keys && row[HStatus] in STATUSES
    && row[HTransport] == "headless" && row[HSurface] == "registered-headless" && Wrapped(row[HHarness])
    && row[HSource] != "" && row[HTime] != ""
  }

  function RestrictHeadless(row: HeadlessRow): HeadlessRow {
    map f | f in row && f in HEADLESS_FIELDS :: row[f]
  }

  predicate Runs(row: HeadlessRow, harness: string) {
    HHarness in row && row[HHarness] == harness
  }

  /** At most one row per harness. */
  predicate OnePerHarness(rows: seq<HeadlessRow>) {
    forall i, j :: 0 <= i < j < |rows| && HHarness in rows[i] && HHarness in rows[j] ==> rows[i][HHarness] != rows[j][HHarness]
  }

  function RowsOf(rows: seq<HeadlessRow>, harness: string): (r: seq<HeadlessRow>)
    ensures |r| <= |rows|
    ensures forall row :: row in r <==> row in rows && Runs(row, harness)
  {
    if rows == [] then []
    else (if Runs(rows[0], harness) then [rows[0]] else []) + RowsOf(rows[1..], harness)
  }

  /** Sorting by harness; the three names in alphabetical order. */
  function SortByHarness(rows: seq<HeadlessRow>): seq<HeadlessRow> {
    RowsOf(rows, "claude") + RowsOf(rows, "codex") + RowsOf(rows, "opencode")
  }

  function RestrictAll(rows: seq<HeadlessRow>): seq<HeadlessRow> {
    seq(|rows|, i requires 0 <= i < |rows| => RestrictHeadless(rows[i]))
  }

  predicate AllFine(rows: seq<HeadlessRow>) {
    forall i :: 0 <= i < |rows| ==> HeadlessFine(rows[i])
  }

  predicate SomeSupported(rows: seq<HeadlessRow>) {
    exists i :: 0 <= i < |rows| && HeadlessFine(rows[i]) && rows[i][HStatus] == "supported"
  }

  predicate HeadlessUsable(rows: seq<HeadlessRow>) {
    rows != [] && AllFine(rows) && OnePerHarness(rows) && SomeSupported(rows)
  }

  function NormalizeHeadless(rows: seq<HeadlessRow>): Result<seq<HeadlessRow>, EvidenceError> {
    if HeadlessUsable(rows) then Ok(SortByHarness(RestrictAll(rows))) else Err(HeadlessUnavailable)
  }

  lemma {:induction false} RowsOfJoin(a: seq<HeadlessRow>, b: seq<HeadlessRow>, harness: string)
    ensures RowsOf(a + b, harness) == RowsOf(a, harness) + RowsOf(b, harness)
  {
    if a == [] {
      assert [] + b == b;
    } else {
      assert (a + b)[0] == a[0] && (a + b)[1..] == a[1..] + b;
      RowsOfJoin(a[1..], b, harness);
    }
  }

  lemma {:induction false} RowsOfRowsOf(rows: seq<HeadlessRow>, have: string, want: string)
    ensures RowsOf(RowsOf(rows, have), want) == if have == want then RowsOf(rows, have) else []
  {
    if rows != [] {
      RowsOfRowsOf(rows[1..], have, want);
      var first := if Runs(rows[0], have) then [rows[0]] else [];
      RowsOfJoin(first, RowsOf(rows[1..], have), want);
      if first != [] { assert first[1..] == []; }
    }
  }

  lemma SortedStaysSorted(rows: seq<HeadlessRow>)
    ensures SortByHarness(SortByHarness(rows)) == SortByHarness(rows)
  {
    var a, b, c := RowsOf(rows, "claude"), RowsOf(rows, "codex"), RowsOf(rows, "opencode");
    SortPart(rows, "claude");
    SortPart(rows, "codex");
    SortPart(rows, "opencode");
  }

  lemma SortPart(rows: seq<HeadlessRow>, want: string)
    requires want in {"claude", "codex", "opencode"}
    ensures RowsOf(SortByHarness(rows), want) == RowsOf(rows, want)
  {
    var a, b, c := RowsOf(rows, "claude"), RowsOf(rows, "codex"), RowsOf(rows, "opencode");
    RowsOfJoin(a + b, c, want);
    RowsOfJoin(a, b, want);
    RowsOfRowsOf(rows, "claude", want);
    RowsOfRowsOf(rows, "codex", want);
    RowsOfRowsOf(rows, "opencode", want);
  }

  lemma {:induction false} SortPermutes(rows: seq<HeadlessRow>)
    requires forall i :: 0 <= i < |rows| ==> HHarness in rows[i] && Wrapped(rows[i][HHarness])
    ensures multiset(SortByHarness(rows)) == multiset(rows)
  {
    if rows != [] {
      SortPermutes(rows[1..]);
      assert rows == [rows[0]] + rows[1..];
    }
  }

  lemma RestrictHeadlessKeeps(row: HeadlessRow)
    requires HeadlessFine(row)
    ensures HeadlessFine(RestrictHeadless(row)) && RestrictHeadless(RestrictHeadless(row)) == RestrictHeadless(row)
    ensures RestrictHeadless(row)[HHarness] == row[HHarness] && RestrictHeadless(row)[HStatus] == row[HStatus]
  {
    assert forall f :: f in HEADLESS_FIELDS ==> f in RestrictHeadless(row) && RestrictHeadless(row)[f] == row[f];
  }

  lemma {:induction false} NoRow(rows: seq<HeadlessRow>, harness: string)
    requires forall i :: 0 <= i < |rows| ==> !Runs(rows[i], harness)
    ensures RowsOf(rows, harness) == []
  {
    if rows != [] { NoRow(rows[1..], harness); }
  }

  lemma {:induction false} AtMostOneRow(rows: seq<HeadlessRow>, harness: string)
    requires OnePerHarness(rows)
    ensures |RowsOf(rows, harness)| <= 1
  {
    if rows != [] {
      var rest := rows[1..];
      assert forall i :: 0 <= i < |rest| ==> rest[i] == rows[i + 1];
      if Runs(rows[0], harness) { NoRow(rest, harness); } else { AtMostOneRow(rest, harness); }
    }
  }

  lemma JoinOnePerHarness(a: seq<HeadlessRow>, b: seq<HeadlessRow>, harness: string)
    requires OnePerHarness(a) && |b| <= 1
    requires (forall i :: 0 <= i < |a| ==> !Runs(a[i], harness)) && (forall i :: 0 <= i < |b| ==> Runs(b[i], harness))
    ensures OnePerHarness(a + b)
  {
  }

  lemma SortedOnePerHarness(rows: seq<HeadlessRow>)
    requires OnePerHarness(rows)
    ensures OnePerHarness(SortByHarness(rows))
  {
    AtMostOneRow(rows, "claude");
    AtMostOneRow(rows, "codex");
    AtMostOneRow(rows, "opencode");
    var a, b, c := RowsOf(rows, "claude"), RowsOf(rows, "codex"), RowsOf(rows, "opencode");
    assert forall i :: 0 <= i < |a| ==> a[i] in a;
    assert forall i :: 0 <= i < |b| ==> b[i] in b;
    assert forall i :: 0 <= i < |c| ==> c[i] in c;
    JoinOnePerHarness(a, b, "codex");
    assert forall i :: 0 <= i < |a + b| ==> (a + b)[i] in a || (a + b)[i] in b;
    JoinOnePerHarness(a + b, c, "opencode");
  }

  lemma RestrictAllFine(rows: seq<HeadlessRow>)
    requires HeadlessUsable(rows)
    ensures HeadlessUsable(RestrictAll(rows))
    ensures forall i :: 0 <= i < |rows| ==> RestrictHeadless(RestrictAll(rows)[i]) == RestrictAll(rows)[i]
  {
    forall i | 0 <= i < |rows|
      ensures HeadlessFine(RestrictAll(rows)[i]) && RestrictHeadless(RestrictAll(rows)[i]) == RestrictAll(rows)[i]
      ensures RestrictAll(rows)[i][HHarness] == rows[i][HHarness] && RestrictAll(rows)[i][HStatus] == rows[i][HStatus]
    {
      RestrictHeadlessKeeps(rows[i]);
    }
    var i :| 0 <= i < |rows| && HeadlessFine(rows[i]) && rows[i][HStatus] == "supported";
    assert HeadlessFine(RestrictAll(rows)[i]) && RestrictAll(rows)[i][HStatus] == "supported";
  }

  lemma SortedHasSame(rows: seq<HeadlessRow>, row: HeadlessRow)
    requires forall i :: 0 <= i < |rows| ==> HHarness in rows[i] && Wrapped(rows[i][HHarness])
    ensures row in SortByHarness(rows) <==> row in rows
  {
    SortPermutes(rows);
    assert row in multiset(SortByHarness(rows)) <==> row in multiset(rows);
  }

  lemma SortedFine(rows: seq<HeadlessRow>)
    requires AllFine(rows)
    ensures AllFine(SortByHarness(rows))
  {
    var sorted := SortByHarness(rows);
    forall i | 0 <= i < |sorted| ensures HeadlessFine(sorted[i]) { SortedHasSame(rows, sorted[i]); }
  }

  lemma SortedSupported(rows: seq<HeadlessRow>)
    requires AllFine(rows) && SomeSupported(rows)
    ensures SomeSupported(SortByHarness(rows))
  {
    var i :| 0 <= i < |rows| && HeadlessFine(rows[i]) && rows[i][HStatus] == "supported";
    SortedHasSame(rows, rows[i]);
    var sorted := SortByHarness(rows);
    var j :| 0 <= j < |sorted| && sorted[j] == rows[i];
  }

  lemma SortedUsable(rows: seq<HeadlessRow>)
    requires HeadlessUsable(rows)
    ensures HeadlessUsable(SortByHarness(rows))
  {
    SortedFine(rows);
    SortedSupported(rows);
    SortedOnePerHarness(rows);
  }

  lemma RestrictSorted(rows: seq<HeadlessRow>)
    requires HeadlessUsable(rows) && forall i :: 0 <= i < |rows| ==> RestrictHeadless(rows[i]) == rows[i]
    ensures RestrictAll(SortByHarness(rows)) == SortByHarness(rows)
  {
    var sorted := SortByHarness(rows);
    forall i | 0 <= i < |sorted| ensures RestrictHeadless(sorted[i]) == sorted[i] { SortedHasSame(rows, sorted[i]); }
  }

  /** Sealed quick evidence is canonical: normalizing it again changes nothing. */
  lemma HeadlessIdempotent(rows: seq<HeadlessRow>)
    requires NormalizeHeadless(rows).Ok?
    ensures NormalizeHeadless(NormalizeHeadless(rows).value) == NormalizeHeadless(rows)
  {
    var kept := RestrictAll(rows);
    RestrictAllFine(rows);
    SortedUsable(kept);
    RestrictSorted(kept);
    SortedStaysSorted(kept);
  }
}
