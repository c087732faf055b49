/** What sealed evidence holds, told row by row and field by field. */
module EvidenceOutcome {
  import opened Prelude
  import opened Evidence

  /* ---- Eligibility rows ---- */

  predicate Usual(row: Row, f: Field) {
    f in row && row[f] != ""
  }

  /** A row a parent at the depth can have, checked, launched by the conductor and without a broker. */
  predicate Launchable(row: Row, parentDepth: nat) {
    && {ParentHarness, ParentTransport, ParentSandbox, ChildHarness, LaunchAuthority, Status, ProbeSource, ProbeTime, FailureClass} <= row.Keys
    && row[Status] in {"supported", "unsupported", "unknown"}
    && row[LaunchAuthority] == "conductor"
    && row[ProbeSource] != "" && row[ProbeTime] != ""
    && row[ChildHarness] in {"claude", "codex", "opencode"}
    && row[ParentTransport] == (if parentDepth == 0 then "interactive" else "headless")
    && (if row[ParentHarness] == "codex" then row[ParentSandbox] in {"workspace-write", "danger-full-access", "read-only"}
        else row[ParentHarness] in {"claude", "opencode"} && row[ParentSandbox] == "adapter-default")
    && !Usual(row, BrokerRoot) && !Usual(row, BrokerInstance)
  }

  lemma RowAccepted(row: Row, parentDepth: nat)
    ensures RowError(row, parentDepth).None? <==> Launchable(row, parentDepth)
  {
  }

  /** The nine fields of a row and no other. */
  predicate NineOf(kept: Row, row: Row) {
    && kept.Keys == {ParentHarness, ParentTransport, ParentSandbox, ChildHarness, LaunchAuthority, Status, ProbeSource, ProbeTime, FailureClass}
    && forall f :: f in kept.Keys ==> f in row && kept[f] == row[f]
  }

  lemma {:induction false} RowsAccepted(rows: seq<Row>, parentDepth: nat)
    ensures NormalizeRows(rows, parentDepth).Ok? <==> forall i :: 0 <= i < |rows| ==> Launchable(rows[i], parentDepth)
    ensures NormalizeRows(rows, parentDepth).Ok? ==>
              var kept := NormalizeRows(rows, parentDepth).value;
              |kept| == |rows| && forall i :: 0 <= i < |rows| ==> NineOf(kept[i], rows[i])
  {
    if rows != [] {
      RowAccepted(rows[0], parentDepth);
      RowsAccepted(rows[1..], parentDepth);
      assert forall i :: 0 < i < |rows| ==> rows[i] == rows[1..][i - 1];
    }
  }

  /* ---- Native rows ---- */

  predicate NativeChecked(row: NativeRow) {
    && {Harness, Transport, Surface, Registered, NativeStatus, CheckSource} <= row.Keys
    && row[NativeStatus] in {Text("supported"), Text("unsupported"), Text("unknown")}
    && ((row[Harness] == Text("codex") && row[Surface] == Text("codex-native-subagent"))
        || (row[Harness] == Text("claude") && row[Surface] == Text("claude-subagent")))
    && row[Transport] == Text("headless") && row[Registered] == Flag(false)
    && row[CheckSource] != Text("") && row[CheckSource] != Flag(false)
  }

  predicate SixOf(kept: NativeRow, row: NativeRow) {
    && kept.Keys == {Harness, Transport, Surface, Registered, NativeStatus, CheckSource}
    && forall f :: f in kept.Keys ==> f in row && kept[f] == row[f]
  }

  lemma {:induction false} NativeAccepted(rows: seq<NativeRow>)
    ensures NormalizeNative(rows).Ok? <==> forall i :: 0 <= i < |rows| ==> NativeChecked(rows[i])
    ensures NormalizeNative(rows).Ok? ==>
              var kept := NormalizeNative(rows).value;
              |kept| == |rows| && forall i :: 0 <= i < |rows| ==> SixOf(kept[i], rows[i])
  {
    if rows != [] {
      assert NativeFine(rows[0]) <==> NativeChecked(rows[0]);
      NativeAccepted(rows[1..]);
      assert forall i :: 0 < i < |rows| ==> rows[i] == rows[1..][i - 1];
    }
  }

  /* ---- Evidence ---- */

  predicate EvidenceGood(e: Checked, parentDepth: nat) {
    && e.tuples != []
    && (forall i :: 0 <= i < |e.tuples| ==> Launchable(e.tuples[i], parentDepth))
    && (forall i :: 0 <= i < |e.native| ==> NativeChecked(e.native[i]))
  }

  /** Row by row the checked fields of the evidence handed in. */
  predicate SealedFrom(kept: Checked, e: Checked) {
    && |kept.tuples| == |e.tuples| && (forall i :: 0 <= i < |e.tuples| ==> NineOf(kept.tuples[i], e.tuples[i]))
    && |kept.native| == |e.native| && (forall i :: 0 <= i < |e.native| ==> SixOf(kept.native[i], e.native[i]))
  }

  /** Evidence is sealed exactly if every row is good, and then holds of each row its checked fields. */
  lemma SealedExactly(e: Checked, parentDepth: nat)
    ensures Normalize(e, parentDepth).Ok? <==> EvidenceGood(e, parentDepth)
    ensures Normalize(e, parentDepth).Ok? ==> SealedFrom(Normalize(e, parentDepth).value, e)
  {
    RowsAccepted(e.tuples, parentDepth);
    NativeAccepted(e.native);
  }

  /* ---- The chain ---- */

  /** The places `at` of a list, in order. */
  predicate Increasing(at: seq<nat>) {
    forall j, k :: 0 <= j < k < |at| ==> at[j] < at[k]
  }

  /** `part` lists, in order, the rows whose child harness is (or is not) the parent's. */
  predicate PartAt(part: seq<Row>, rows: seq<Row>, same: bool, at: seq<nat>) {
    && |at| == |part| && Increasing(at)
    && (forall k :: 0 <= k < |at| ==> at[k] < |rows| && part[k] == rows[at[k]] && SameHarnesses(rows[at[k]]) == same)
    && forall i :: 0 <= i < |rows| && SameHarnesses(rows[i]) == same ==> i in at
  }

  predicate SameHarnesses(row: Row) {
    ChildHarness in row && ParentHarness in row && row[ChildHarness] == row[ParentHarness]
  }

  ghost predicate IsPart(part: seq<Row>, rows: seq<Row>, same: bool) {
    exists at :: PartAt(part, rows, same, at)
  }

  lemma {:induction false} SideAt(rows: seq<Row>, same: bool) returns (at: seq<nat>)
    ensures PartAt(Side(rows, same), rows, same, at)
  {
    at := [];
    if rows != [] {
      var before := SideAt(rows[1..], same);
      var moved: seq<nat> := seq(|before|, k requires 0 <= k < |before| => before[k] + 1);
      at := (if SameHarnesses(rows[0]) == same then [0] else []) + moved;
      Shifted(rows, same, before, moved, at);
    }
  }

  lemma Shifted(rows: seq<Row>, same: bool, before: seq<nat>, moved: seq<nat>, at: seq<nat>)
    requires rows != [] && PartAt(Side(rows[1..], same), rows[1..], same, before)
    requires |moved| == |before| && forall k :: 0 <= k < |before| ==> moved[k] == before[k] + 1
    requires at == (if SameHarnesses(rows[0]) == same then [0] else []) + moved
    ensures PartAt(Side(rows, same), rows, same, at)
  {
    var rest := Side(rows[1..], same);
    var first := if SameHarnesses(rows[0]) == same then [rows[0]] else [];
    forall k | 0 <= k < |moved| ensures moved[k] < |rows| && rest[k] == rows[moved[k]] && SameHarnesses(rows[moved[k]]) == same {
      assert rows[moved[k]] == rows[1..][before[k]];
    }
    assert Increasing(moved);
    forall i | 0 <= i < |rows| && SameHarnesses(rows[i]) == same ensures i in at {
      if i == 0 { assert at[0] == 0; } else { MovedCovers(rows, same, before, moved, i); }
    }
    FirstAdded(rows, same, rest, first, moved, at);
  }

  lemma MovedCovers(rows: seq<Row>, same: bool, before: seq<nat>, moved: seq<nat>, i: nat)
    requires 0 < i < |rows| && SameHarnesses(rows[i]) == same && PartAt(Side(rows[1..], same), rows[1..], same, before)
    requires |moved| == |before| && forall k :: 0 <= k < |before| ==> moved[k] == before[k] + 1
    ensures i in moved
  {
    assert rows[1..][i - 1] == rows[i];
    var k :| 0 <= k < |before| && before[k] == i - 1;
    assert moved[k] in moved;
  }

  lemma FirstAdded(rows: seq<Row>, same: bool, rest: seq<Row>, first: seq<Row>, moved: seq<nat>, at: seq<nat>)
    requires rows != [] && |moved| == |rest| && Increasing(moved) && forall k :: 0 <= k < |moved| ==> moved[k] > 0
    requires forall k :: 0 <= k < |moved| ==> moved[k] < |rows| && rest[k] == rows[moved[k]] && SameHarnesses(rows[moved[k]]) == same
    requires first == (if SameHarnesses(rows[0]) == same then [rows[0]] else [])
    requires at == (if SameHarnesses(rows[0]) == same then [0] else []) + moved
    requires forall i :: 0 <= i < |rows| && SameHarnesses(rows[i]) == same ==> i in at
    ensures PartAt(first + rest, rows, same, at)
  {
  }

  lemma SideIsPart(rows: seq<Row>, same: bool)
    ensures IsPart(Side(rows, same), rows, same)
  {
    var at := SideAt(rows, same);
  }

  predicate SomeLaunchable(rows: seq<Row>) {
    exists i :: 0 <= i < |rows| && Status in rows[i] && rows[i][Status] == "supported"
  }

  /** The four hops in order: the rows of one harness, those of two, the native rows, and inline. */
  ghost predicate IsChain(hops: seq<Hop>, kept: Checked) {
    && |hops| == 4
    && hops[0].ordinal == 1 && hops[0].name == SameHarness && hops[0].native == [] && IsPart(hops[0].candidates, kept.tuples, true)
    && hops[1].ordinal == 2 && hops[1].name == CrossHarness && hops[1].native == [] && IsPart(hops[1].candidates, kept.tuples, false)
    && hops[2] == Hop(3, NativeSubagent, [], kept.native)
    && hops[3] == Hop(4, Inline, [], [])
  }

  lemma SidesSupported(rows: seq<Row>)
    requires forall i :: 0 <= i < |rows| ==> LaunchAuthority in rows[i] && rows[i][LaunchAuthority] == "conductor"
    ensures AnySupported(Side(rows, true) + Side(rows, false)) <==> SomeLaunchable(rows)
  {
    var both := Side(rows, true) + Side(rows, false);
    if SomeLaunchable(rows) {
      var i :| 0 <= i < |rows| && Status in rows[i] && rows[i][Status] == "supported";
      assert rows[i] in rows && rows[i] in both;
      var k :| 0 <= k < |both| && both[k] == rows[i];
    }
    if AnySupported(both) {
      var k :| 0 <= k < |both| && Supported(both[k]);
      assert both[k] in rows;
      var i :| 0 <= i < |rows| && rows[i] == both[k];
    }
  }

  /** The chain is built exactly if the evidence is good and some row is supported, and then lists every
      sealed row in its hop and order. */
  lemma ChainExactly(e: Checked, parentDepth: nat)
    ensures FallbackChain(e, parentDepth).Ok? <==> EvidenceGood(e, parentDepth) && SomeLaunchable(e.tuples)
    ensures FallbackChain(e, parentDepth).Ok? ==>
              Normalize(e, parentDepth).Ok? && IsChain(FallbackChain(e, parentDepth).value, Normalize(e, parentDepth).value)
  {
    SealedExactly(e, parentDepth);
    if Normalize(e, parentDepth).Ok? {
      var kept := Normalize(e, parentDepth).value;
      KeptSupported(e, kept, parentDepth);
      SidesSupported(kept.tuples);
      if SomeLaunchable(e.tuples) { HopsAre(e, kept, parentDepth); }
    }
  }

  lemma ChainIs(e: Checked, kept: Checked, parentDepth: nat)
    requires Normalize(e, parentDepth) == Ok(kept) && AnySupported(Side(kept.tuples, true) + Side(kept.tuples, false))
    ensures FallbackChain(e, parentDepth) == Ok(FourHops(Side(kept.tuples, true), Side(kept.tuples, false), kept.native))
  {
  }

  function FourHops(same: seq<Row>, cross: seq<Row>, native: seq<NativeRow>): seq<Hop> {
    [Hop(1, SameHarness, same, []), Hop(2, CrossHarness, cross, []), Hop(3, NativeSubagent, [], native), Hop(4, Inline, [], [])]
  }

  lemma FourHopsChain(same: seq<Row>, cross: seq<Row>, kept: Checked)
    requires IsPart(same, kept.tuples, true) && IsPart(cross, kept.tuples, false)
    ensures IsChain(FourHops(same, cross, kept.native), kept)
  {
  }

  lemma HopsAre(e: Checked, kept: Checked, parentDepth: nat)
    requires Normalize(e, parentDepth) == Ok(kept) && AnySupported(Side(kept.tuples, true) + Side(kept.tuples, false))
    ensures FallbackChain(e, parentDepth).Ok? && IsChain(FallbackChain(e, parentDepth).value, kept)
  {
    var same, cross := Side(kept.tuples, true), Side(kept.tuples, false);
    SideIsPart(kept.tuples, true);
    SideIsPart(kept.tuples, false);
    ChainIs(e, kept, parentDepth);
    FourHopsChain(same, cross, kept);
  }

  lemma KeptSupported(e: Checked, kept: Checked, parentDepth: nat)
    requires EvidenceGood(e, parentDepth) && SealedFrom(kept, e)
    ensures forall i :: 0 <= i < |kept.tuples| ==> LaunchAuthority in kept.tuples[i] && kept.tuples[i][LaunchAuthority] == "conductor"
    ensures SomeLaunchable(kept.tuples) <==> SomeLaunchable(e.tuples)
  {
    forall i | 0 <= i < |kept.tuples|
      ensures LaunchAuthority in kept.tuples[i] && kept.tuples[i][LaunchAuthority] == "conductor"
      ensures Status in kept.tuples[i] && Status in e.tuples[i] && kept.tuples[i][Status] == e.tuples[i][Status]
    {
      assert NineOf(kept.tuples[i], e.tuples[i]) && Launchable(e.tuples[i], parentDepth);
    }
  }

  /* ---- Evidence for the quick tier ---- */

  predicate HeadlessGood(row: HeadlessRow) {
    && {HHarness, HTransport, HSurface, HStatus, HSource, HTime} <= row.Keys
    && row[HHarness] in {"claude", "codex", "opencode"}
    && row[HTransport] == "headless" && row[HSurface] == "registered-headless"
    && row[HStatus] in {"supported", "unsupported", "unknown"} && row[HSource] != "" && row[HTime] != ""
  }

  predicate CandidatesGood(rows: seq<HeadlessRow>) {
    && (forall i :: 0 <= i < |rows| ==> HeadlessGood(rows[i]))
    && (forall i, j :: 0 <= i < j < |rows| ==> HHarness in rows[i] && HHarness in rows[j] && rows[i][HHarness] != rows[j][HHarness])
    && exists i :: 0 <= i < |rows| && HStatus in rows[i] && rows[i][HStatus] == "supported"
  }

  predicate SixFieldsOf(kept: HeadlessRow, row: HeadlessRow) {
    && kept.Keys == {HHarness, HTransport, HSurface, HStatus, HSource, HTime}
    && forall f :: f in kept.Keys ==> f in row && kept[f] == row[f]
  }

  predicate FromSome(kept: HeadlessRow, rows: seq<HeadlessRow>) {
    exists i :: 0 <= i < |rows| && SixFieldsOf(kept, rows[i])
  }

  predicate KeptOnce(row: HeadlessRow, kept: seq<HeadlessRow>) {
    exists k :: 0 <= k < |kept| && SixFieldsOf(kept[k], row)
  }

  predicate Before(a: string, b: string) {
    (a == "claude" && b in {"codex", "opencode"}) || (a == "codex" && b == "opencode")
  }

  /** The six fields of every candidate, in the alphabetical order of the harnesses. */
  predicate IsSorted(kept: seq<HeadlessRow>, rows: seq<HeadlessRow>) {
    && |kept| == |rows|
    && (forall k :: 0 <= k < |kept| ==> FromSome(kept[k], rows))
    && (forall i :: 0 <= i < |rows| ==> KeptOnce(rows[i], kept))
    && forall j, k :: 0 <= j < k < |kept| ==> HHarness in kept[j] && HHarness in kept[k] && Before(kept[j][HHarness], kept[k][HHarness])
  }

  /** Quick evidence is sealed exactly if it holds good candidates, one for each harness, some supported. */
  lemma HeadlessExactly(rows: seq<HeadlessRow>)
    ensures NormalizeHeadless(rows).Ok? <==> CandidatesGood(rows)
    ensures NormalizeHeadless(rows).Ok? ==> IsSorted(NormalizeHeadless(rows).value, rows)
  {
    GoodUsable(rows);
    if HeadlessUsable(rows) {
      RestrictAllFine(rows);
      var all := RestrictAll(rows);
      var kept := SortByHarness(all);
      SortPermutes(all);
      assert |kept| == |multiset(kept)| == |multiset(all)| == |rows|;
      forall k | 0 <= k < |kept| ensures FromSome(kept[k], rows) { SortedHasSame(all, kept[k]); KeptFrom(rows, kept[k]); }
      forall i | 0 <= i < |rows| ensures KeptOnce(rows[i], kept) {
        SortedHasSame(all, all[i]);
        RestrictIsSix(rows[i]);
        var k :| 0 <= k < |kept| && kept[k] == all[i];
      }
      SortedBefore(all);
    }
  }

  lemma GoodUsable(rows: seq<HeadlessRow>)
    ensures HeadlessUsable(rows) <==> CandidatesGood(rows)
  {
    assert forall i :: 0 <= i < |rows| ==> (HeadlessFine(rows[i]) <==> HeadlessGood(rows[i]));
  }

  lemma RestrictIsSix(row: HeadlessRow)
    requires HeadlessFine(row)
    ensures SixFieldsOf(RestrictHeadless(row), row)
  {
  }

  lemma KeptFrom(rows: seq<HeadlessRow>, kept: HeadlessRow)
    requires AllFine(rows) && kept in RestrictAll(rows)
    ensures FromSome(kept, rows)
  {
    var i :| 0 <= i < |rows| && RestrictAll(rows)[i] == kept;
    RestrictIsSix(rows[i]);
  }

  lemma SortedBefore(rows: seq<HeadlessRow>)
    requires OnePerHarness(rows)
    ensures var kept := SortByHarness(rows);
            forall j, k :: 0 <= j < k < |kept| ==> HHarness in kept[j] && HHarness in kept[k] && Before(kept[j][HHarness], kept[k][HHarness])
  {
    AtMostOneRow(rows, "claude");
    AtMostOneRow(rows, "codex");
    AtMostOneRow(rows, "opencode");
    var a, b, c := RowsOf(rows, "claude"), RowsOf(rows, "codex"), RowsOf(rows, "opencode");
    assert forall i :: 0 <= i < |a| ==> a[i] in a;
    assert forall i :: 0 <= i < |b| ==> b[i] in b;
    assert forall i :: 0 <= i < |c| ==> c[i] in c;
  }
}
