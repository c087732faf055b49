/** Blanking of Markdown inline code spans. */
module CodeSpans {

  /** A half-open range of positions; a backtick run or a code span. */
  datatype Range = Range(start: nat, end: nat)

  /* ---- Backtick runs ---- */

  function NextTick(text: string, from: nat): (p: nat)
    requires from <= |text|
    ensures from <= p <= |text|
    ensures forall q :: from <= q < p ==> text[q] != '`'
    ensures p < |text| ==> text[p] == '`'
    decreases |text| - from
  {
    if from == |text| || text[from] == '`' then from else NextTick(text, from + 1)
  }

  function RunEnd(text: string, from: nat): (p: nat)
    requires from <= |text|
    ensures from <= p <= |text|
    ensures forall q :: from <= q < p ==> text[q] == '`'
    ensures p < |text| ==> text[p] != '`'
    decreases |text| - from
  {
    if from == |text| || text[from] != '`' then from else RunEnd(text, from + 1)
  }

  /** The maximal runs of backticks at or after `from`. */
  function Runs(text: string, from: nat): seq<Range>
    requires from <= |text|
    decreases |text| - from
  {
    var p := NextTick(text, from);
    if p == |text| then [] else [Range(p, RunEnd(text, p))] + Runs(text, RunEnd(text, p))
  }

  predicate IsRun(text: string, r: Range) {
    && r.start < r.end <= |text|
    && (forall q :: r.start <= q < r.end ==> text[q] == '`')
    && (r.start > 0 ==> text[r.start - 1] != '`')
    && (r.end < |text| ==> text[r.end] != '`')
  }

  /** Runs of the text in order, none missing behind the first. */
  predicate AreRuns(text: string, runs: seq<Range>) {
    && (forall k {:trigger IsRun(text, runs[k])} :: 0 <= k < |runs| ==> IsRun(text, runs[k]))
    && (forall j, k {:trigger Before(runs[j], runs[k])} :: 0 <= j < k < |runs| ==> Before(runs[j], runs[k]))
  }

  predicate Before(a: Range, b: Range) {
    a.end < b.start
  }

  lemma PrependRun(text: string, r: Range, rest: seq<Range>)
    requires IsRun(text, r) && AreRuns(text, rest)
    requires forall k :: 0 <= k < |rest| ==> r.end <= rest[k].start
    ensures AreRuns(text, [r] + rest)
  {
    forall k | 0 <= k < |rest| ensures r.end < rest[k].start {
      assert IsRun(text, rest[k]);
    }
  }

  lemma {:induction false} RunsAreRuns(text: string, from: nat)
    requires from <= |text| && (0 < from < |text| ==> text[from - 1] != '`' || text[from] != '`')
    ensures AreRuns(text, Runs(text, from))
    ensures forall k :: 0 <= k < |Runs(text, from)| ==> from <= Runs(text, from)[k].start
    decreases |text| - from
  {
    var p := NextTick(text, from);
    if p < |text| {
      var r := Range(p, RunEnd(text, p));
      assert IsRun(text, r);
      RunsAreRuns(text, r.end);
      PrependRun(text, r, Runs(text, r.end));
    }
  }

  lemma {:induction false} EveryRunListed(text: string, from: nat, r: Range)
    requires from <= |text| && IsRun(text, r) && from <= r.start
    ensures r in Runs(text, from)
    decreases |text| - from
  {
    var p := NextTick(text, from);
    assert text[r.start] == '`' && p <= r.start;
    var e := RunEnd(text, p);
    if r.start < e {
      assert p == r.start && e == r.end;
    } else {
      EveryRunListed(text, e, r);
    }
  }

  /* ---- Matched spans ---- */

  /** Backslashes directly in front of a position. */
  function Backslashes(text: string, p: nat): (n: nat)
    requires p <= |text|
  {
    if p == 0 || text[p - 1] != '\\' then 0 else 1 + Backslashes(text, p - 1)
  }

  predicate Escaped(text: string, p: nat)
    requires p <= |text|
  {
    Backslashes(text, p) % 2 == 1
  }

  function Size(r: Range): int {
    r.end - r.start
  }

  /** The first run at or after `from` that is as long as `size`, or the number of runs. */
  function Closer(runs: seq<Range>, from: nat, size: int): (k: nat)
    requires from <= |runs|
    ensures from <= k <= |runs|
    ensures k < |runs| ==> Size(runs[k]) == size
    ensures forall j :: from <= j < k ==> Size(runs[j]) != size
    decreases |runs| - from
  {
    if from == |runs| || Size(runs[from]) == size then from else Closer(runs, from + 1, size)
  }

  /** A run that is neither escaped nor without a later run of its length opens a span up to the
      next run of its length; what lies between is taken as it is. */
  function Spans(text: string, runs: seq<Range>, i: nat): seq<Range>
    requires i <= |runs| && AreRuns(text, runs)
    decreases |runs| - i
  {
    if i == |runs| then []
    else
      assert IsRun(text, runs[i]);
      var k := Closer(runs, i + 1, Size(runs[i]));
      if Escaped(text, runs[i].start) || k == |runs| then Spans(text, runs, i + 1)
      else [Range(runs[i].start, runs[k].end)] + Spans(text, runs, k + 1)
  }

  predicate Inside(p: int, s: Range) {
    s.start <= p < s.end
  }

  predicate Within(p: int, spans: seq<Range>) {
    exists k :: 0 <= k < |spans| && Inside(p, spans[k])
  }

  function Blank(text: string, spans: seq<Range>): (r: string)
    ensures |r| == |text|
  {
    seq(|text|, p requires 0 <= p < |text| => if text[p] !in {'\n', '\r'} && Within(p, spans) then ' ' else text[p])
  }

  function SpansOf(text: string): seq<Range> {
    RunsAreRuns(text, 0);
    Spans(text, Runs(text, 0), 0)
  }

  function Strip(text: string): string {
    Blank(text, SpansOf(text))
  }

  /* ---- What is left over ---- */

  /** No later run has the length of `r`. */
  predicate Unmatched(runs: seq<Range>, r: Range) {
    forall k :: 0 <= k < |runs| && r.start < runs[k].start ==> Size(runs[k]) != Size(r)
  }

  /** The b-th run is the first one behind the a-th of its length, and the a-th is not escaped. */
  predicate Matched(text: string, runs: seq<Range>, a: nat, b: nat) {
    && a < b < |runs| && runs[a].start <= |text|
    && !Escaped(text, runs[a].start)
    && Size(runs[a]) == Size(runs[b])
    && forall c :: a < c < b ==> Size(runs[c]) != Size(runs[a])
  }

  /** A span reaches from a run to the one that matches it. */
  ghost predicate IsSpan(text: string, runs: seq<Range>, from: nat, s: Range) {
    exists a: nat, b: nat :: from <= a && Matched(text, runs, a, b) && s == Range(runs[a].start, runs[b].end)
  }

  ghost predicate SpansFit(text: string, runs: seq<Range>, from: nat, spans: seq<Range>) {
    forall i :: 0 <= i < |spans| ==> IsSpan(text, runs, from, spans[i])
  }

  predicate Kept(r: Range, spans: seq<Range>) {
    forall p :: r.start <= p < r.end ==> !Within(p, spans)
  }

  predicate Covered(r: Range, spans: seq<Range>) {
    forall p :: r.start <= p < r.end ==> Within(p, spans)
  }

  lemma {:induction false} SpansAreWholeRuns(text: string, runs: seq<Range>, i: nat)
    requires AreRuns(text, runs) && i <= |runs|
    ensures SpansFit(text, runs, i, Spans(text, runs, i))
    decreases |runs| - i
  {
    if i < |runs| {
      assert IsRun(text, runs[i]);
      var k := Closer(runs, i + 1, Size(runs[i]));
      if Escaped(text, runs[i].start) || k == |runs| {
        SpansAreWholeRuns(text, runs, i + 1);
        FitsEarlier(text, runs, i + 1, i, Spans(text, runs, i + 1));
      } else {
        SpansAreWholeRuns(text, runs, k + 1);
        FitsEarlier(text, runs, k + 1, i, Spans(text, runs, k + 1));
        assert Matched(text, runs, i, k);
        assert IsSpan(text, runs, i, Range(runs[i].start, runs[k].end));
      }
    }
  }

  lemma FitsEarlier(text: string, runs: seq<Range>, later: nat, i: nat, spans: seq<Range>)
    requires i <= later && SpansFit(text, runs, later, spans)
    ensures SpansFit(text, runs, i, spans)
  {
    forall k | 0 <= k < |spans| ensures IsSpan(text, runs, i, spans[k]) {
      assert IsSpan(text, runs, later, spans[k]);
    }
  }

  /** Spans from the i-th run on leave everything before that run alone. */
  lemma SpansStartLater(text: string, runs: seq<Range>, i: nat, p: int)
    requires AreRuns(text, runs) && i <= |runs| && (i < |runs| ==> p < runs[i].start)
    ensures !Within(p, Spans(text, runs, i))
  {
    var spans := Spans(text, runs, i);
    SpansAreWholeRuns(text, runs, i);
    forall k | 0 <= k < |spans| ensures p < spans[k].start {
      SpanStartsLater(text, runs, i, spans[k]);
    }
  }

  lemma SpanStartsLater(text: string, runs: seq<Range>, i: nat, s: Range)
    requires AreRuns(text, runs) && IsSpan(text, runs, i, s)
    ensures i < |runs| && runs[i].start <= s.start
  {
    var a: nat, b: nat :| i <= a && Matched(text, runs, a, b) && s == Range(runs[a].start, runs[b].end);
    Later(text, runs, i, a);
  }

  lemma KeptBefore(text: string, runs: seq<Range>, j: nat, i: nat)
    requires AreRuns(text, runs) && j < i <= |runs|
    ensures Kept(runs[j], Spans(text, runs, i))
  {
    forall p | runs[j].start <= p < runs[j].end ensures !Within(p, Spans(text, runs, i)) {
      if i < |runs| { Later(text, runs, j, i); assert IsRun(text, runs[i]) && Before(runs[j], runs[i]); }
      SpansStartLater(text, runs, i, p);
    }
  }

  lemma Later(text: string, runs: seq<Range>, i: nat, j: nat)
    requires AreRuns(text, runs) && i < |runs| && j < |runs|
    ensures runs[i].start < runs[j].start <==> i < j
  {
    assert IsRun(text, runs[i]) && IsRun(text, runs[j]);
    assert i < j ==> Before(runs[i], runs[j]);
    assert j < i ==> Before(runs[j], runs[i]);
  }

  lemma NoCloserUnmatched(text: string, runs: seq<Range>, i: nat)
    requires AreRuns(text, runs) && i < |runs|
    ensures Closer(runs, i + 1, Size(runs[i])) == |runs| <==> Unmatched(runs, runs[i])
  {
    var k := Closer(runs, i + 1, Size(runs[i]));
    if k == |runs| {
      forall j | 0 <= j < |runs| && runs[i].start < runs[j].start ensures Size(runs[j]) != Size(runs[i]) {
        Later(text, runs, i, j);
      }
    } else {
      Later(text, runs, i, k);
    }
  }

  lemma SkipsOne(text: string, runs: seq<Range>, i: nat, k: nat)
    requires AreRuns(text, runs) && i < |runs| && runs[i].start <= |text| && k == Closer(runs, i + 1, Size(runs[i]))
    ensures Escaped(text, runs[i].start) || k == |runs| ==> Spans(text, runs, i) == Spans(text, runs, i + 1)
    ensures !Escaped(text, runs[i].start) && k < |runs| ==>
              Spans(text, runs, i) == [Range(runs[i].start, runs[k].end)] + Spans(text, runs, k + 1)
  {
  }

  ghost predicate InMatchedSpan(text: string, runs: seq<Range>, p: int) {
    exists a: nat, b: nat :: Matched(text, runs, a, b) && runs[a].start <= p < runs[b].end
  }

  /** Line breaks stay, and a character changes only inside a span from an unescaped run to the
      next run of its length, and only to a blank. */
  lemma ChangesOnlySpans(text: string, p: nat)
    requires p < |text|
    ensures |Strip(text)| == |text|
    ensures text[p] in {'\n', '\r'} || Strip(text)[p] in {'\n', '\r'} ==> Strip(text)[p] == text[p]
    ensures Strip(text)[p] != text[p] ==>
              Strip(text)[p] == ' ' && InMatchedSpan(text, Runs(text, 0), p)
  {
    RunsAreRuns(text, 0);
    var runs := Runs(text, 0);
    SpansAreWholeRuns(text, runs, 0);
    if Strip(text)[p] != text[p] {
      var spans := SpansOf(text);
      var k :| 0 <= k < |spans| && Inside(p, spans[k]);
      assert IsSpan(text, runs, 0, spans[k]);
      var a: nat, b: nat :| Matched(text, runs, a, b) && spans[k] == Range(runs[a].start, runs[b].end);
      assert Matched(text, runs, a, b) && runs[a].start <= p < runs[b].end;
    }
  }

  /** A run either vanishes in a span or stays untouched, and then it is escaped or unmatched. */
  ghost predicate Fate(text: string, runs: seq<Range>, r: Range, spans: seq<Range>)
    requires r.start <= |text|
  {
    Covered(r, spans) || (Kept(r, spans) && (Escaped(text, r.start) || Unmatched(runs, r)))
  }

  lemma {:induction false} RunFate(text: string, runs: seq<Range>, i: nat, j: nat)
    requires AreRuns(text, runs) && i <= j < |runs| && runs[j].start <= |text|
    ensures Fate(text, runs, runs[j], Spans(text, runs, i))
    decreases |runs| - i
  {
    assert IsRun(text, runs[i]);
    var k := Closer(runs, i + 1, Size(runs[i]));
    SkipsOne(text, runs, i, k);
    if Escaped(text, runs[i].start) || k == |runs| {
      if i < j { RunFate(text, runs, i + 1, j); } else { SkippedFate(text, runs, i); }
    } else {
      var first := Range(runs[i].start, runs[k].end);
      var later := Spans(text, runs, k + 1);
      if j <= k {
        InFirst(text, runs, i, j, k, later);
      } else {
        RunFate(text, runs, k + 1, j);
        assert Before(runs[k], runs[j]);
        FateBehind(text, runs, first, later, runs[j]);
      }
    }
  }

  lemma SkippedFate(text: string, runs: seq<Range>, i: nat)
    requires AreRuns(text, runs) && i < |runs| && runs[i].start <= |text|
    requires Escaped(text, runs[i].start) || Closer(runs, i + 1, Size(runs[i])) == |runs|
    ensures Fate(text, runs, runs[i], Spans(text, runs, i + 1))
  {
    KeptBefore(text, runs, i, i + 1);
    NoCloserUnmatched(text, runs, i);
  }

  lemma InFirst(text: string, runs: seq<Range>, i: nat, j: nat, k: nat, later: seq<Range>)
    requires AreRuns(text, runs) && i <= j <= k < |runs|
    ensures Covered(runs[j], [Range(runs[i].start, runs[k].end)] + later)
  {
    Later(text, runs, j, i);
    Later(text, runs, k, j);
    assert IsRun(text, runs[k]) && IsRun(text, runs[j]);
    assert j < k ==> Before(runs[j], runs[k]);
    var spans := [Range(runs[i].start, runs[k].end)] + later;
    forall p | runs[j].start <= p < runs[j].end ensures Within(p, spans) {
      assert Inside(p, spans[0]);
    }
  }

  lemma FateBehind(text: string, runs: seq<Range>, first: Range, later: seq<Range>, r: Range)
    requires first.end <= r.start <= |text| && Fate(text, runs, r, later)
    ensures Fate(text, runs, r, [first] + later)
  {
    var spans := [first] + later;
    forall p | r.start <= p < r.end ensures Within(p, spans) <==> Within(p, later) {
      if Within(p, later) {
        var k :| 0 <= k < |later| && Inside(p, later[k]);
        assert spans[k + 1] == later[k];
      }
      if Within(p, spans) {
        var k :| 0 <= k < |spans| && Inside(p, spans[k]);
        assert later[k - 1] == spans[k];
      }
    }
    assert Covered(r, later) ==> Covered(r, spans);
    assert Kept(r, later) ==> Kept(r, spans);
  }

  /** A span begins and ends on the outer edges of backtick runs. */
  lemma SpanIsDelimited(text: string, runs: seq<Range>, s: Range)
    requires AreRuns(text, runs) && IsSpan(text, runs, 0, s)
    ensures s.start < s.end <= |text| && text[s.start] == '`' == text[s.end - 1]
    ensures s.start > 0 ==> text[s.start - 1] != '`'
    ensures s.end < |text| ==> text[s.end] != '`'
  {
    var a: nat, b: nat :| Matched(text, runs, a, b) && s == Range(runs[a].start, runs[b].end);
    assert IsRun(text, runs[a]) && IsRun(text, runs[b]) && Before(runs[a], runs[b]);
  }

  /** Next to a blanked range there is no backtick left over from its first or last run. */
  lemma SpanEnds(text: string, runs: seq<Range>, spans: seq<Range>, p: int)
    requires AreRuns(text, runs) && SpansFit(text, runs, 0, spans)
    requires 0 <= p < |text| - 1 && Within(p, spans) && !Within(p + 1, spans)
    ensures text[p] == '`' && text[p + 1] != '`'
  {
    var k :| 0 <= k < |spans| && Inside(p, spans[k]);
    SpanIsDelimited(text, runs, spans[k]);
    assert !Inside(p + 1, spans[k]);
  }

  lemma SpanBegins(text: string, runs: seq<Range>, spans: seq<Range>, p: int)
    requires AreRuns(text, runs) && SpansFit(text, runs, 0, spans)
    requires 0 <= p < |text| - 1 && !Within(p, spans) && Within(p + 1, spans)
    ensures text[p] != '`' && text[p + 1] == '`'
  {
    var k :| 0 <= k < |spans| && Inside(p + 1, spans[k]);
    SpanIsDelimited(text, runs, spans[k]);
    assert !Inside(p, spans[k]);
  }

  /** Runs of the blanked text are untouched runs of the text. */
  lemma LeftoverRun(text: string, runs: seq<Range>, spans: seq<Range>, r: Range)
    requires AreRuns(text, runs) && SpansFit(text, runs, 0, spans)
    requires IsRun(Blank(text, spans), r)
    ensures IsRun(text, r) && Kept(r, spans)
  {
    var after := Blank(text, spans);
    forall p | r.start <= p < r.end ensures text[p] == '`' && !Within(p, spans) {
      assert after[p] == '`';
    }
    if r.start > 0 && Within(r.start - 1, spans) { SpanEnds(text, runs, spans, r.start - 1); }
    if r.end < |text| && Within(r.end, spans) { SpanBegins(text, runs, spans, r.end - 1); }
  }

  lemma {:induction false} SameBackslashes(text: string, runs: seq<Range>, spans: seq<Range>, p: nat)
    requires AreRuns(text, runs) && SpansFit(text, runs, 0, spans)
    requires p < |text| && !Within(p, spans)
    ensures Backslashes(Blank(text, spans), p) == Backslashes(text, p)
    decreases p
  {
    if p > 0 && text[p - 1] == '\\' {
      if Within(p - 1, spans) { SpanEnds(text, runs, spans, p - 1); }
      SameBackslashes(text, runs, spans, p - 1);
    }
  }

  /** Every run is escaped or unmatched. */
  predicate Settled(text: string, runs: seq<Range>)
    requires AreRuns(text, runs)
  {
    forall k :: 0 <= k < |runs| ==> IsRun(text, runs[k]) && (Escaped(text, runs[k].start) || Unmatched(runs, runs[k]))
  }

  predicate OpensNothing(text: string, runs: seq<Range>, i: nat)
    requires i < |runs|
  {
    runs[i].start <= |text| && (Escaped(text, runs[i].start) || Closer(runs, i + 1, Size(runs[i])) == |runs|)
  }

  lemma {:induction false} NoOpenersNoSpans(text: string, runs: seq<Range>, i: nat)
    requires AreRuns(text, runs) && i <= |runs| && forall k: nat :: i <= k < |runs| ==> OpensNothing(text, runs, k)
    ensures Spans(text, runs, i) == []
    decreases |runs| - i
  {
    if i < |runs| {
      assert OpensNothing(text, runs, i);
      SkipsOne(text, runs, i, Closer(runs, i + 1, Size(runs[i])));
      NoOpenersNoSpans(text, runs, i + 1);
    }
  }

  lemma SettledOpensNothing(text: string, runs: seq<Range>, i: nat)
    requires AreRuns(text, runs) && Settled(text, runs) && i < |runs|
    ensures OpensNothing(text, runs, i)
  {
    assert IsRun(text, runs[i]);
    NoCloserUnmatched(text, runs, i);
  }

  lemma SettledHasNoSpans(text: string, runs: seq<Range>)
    requires AreRuns(text, runs) && Settled(text, runs)
    ensures Spans(text, runs, 0) == []
  {
    forall k: nat | k < |runs| ensures OpensNothing(text, runs, k) { SettledOpensNothing(text, runs, k); }
    NoOpenersNoSpans(text, runs, 0);
  }

  lemma StripSettles(text: string)
    ensures AreRuns(Strip(text), Runs(Strip(text), 0)) && Settled(Strip(text), Runs(Strip(text), 0))
  {
    RunsAreRuns(text, 0);
    var runs := Runs(text, 0);
    SpansAreWholeRuns(text, runs, 0);
    var spans := SpansOf(text);
    var after := Strip(text);
    RunsAreRuns(after, 0);
    var left := Runs(after, 0);
    forall k | 0 <= k < |left| ensures IsRun(after, left[k]) && (Escaped(after, left[k].start) || Unmatched(left, left[k])) {
      var r := left[k];
      LeftoverRun(text, runs, spans, r);
      EveryRunListed(text, 0, r);
      var i :| 0 <= i < |runs| && runs[i] == r;
      RunFate(text, runs, 0, i);
      assert !Within(r.start, spans);
      SameBackslashes(text, runs, spans, r.start);
      if Unmatched(runs, r) {
        forall j | 0 <= j < |left| && r.start < left[j].start ensures Size(left[j]) != Size(r) {
          LeftoverRun(text, runs, spans, left[j]);
          EveryRunListed(text, 0, left[j]);
        }
      }
    }
  }

  /** Blanking twice is blanking once. */
  lemma StripIdempotent(text: string)
    ensures Strip(Strip(text)) == Strip(text)
  {
    var after := Strip(text);
    StripSettles(text);
    SettledHasNoSpans(after, Runs(after, 0));
    assert Blank(after, []) == after;
  }

  /* ---- The loops ---- */

  method CountBackslashes(text: string, start: nat) returns (n: nat)
    requires start <= |text|
    ensures n == Backslashes(text, start)
  {
    n := 0;
    var cursor := start - 1;
    while cursor >= 0 && text[cursor] == '\\'
      invariant -1 <= cursor < start && n == start - 1 - cursor
      invariant Backslashes(text, start) == n + Backslashes(text, cursor + 1)
    {
      n := n + 1;
      cursor := cursor - 1;
    }
  }

  method FindCloser(runs: seq<Range>, index: nat) returns (k: nat)
    requires index < |runs|
    ensures k == Closer(runs, index + 1, Size(runs[index]))
  {
    k := index + 1;
    while k < |runs| && Size(runs[k]) != Size(runs[index])
      invariant index + 1 <= k <= |runs|
      invariant Closer(runs, k, Size(runs[index])) == Closer(runs, index + 1, Size(runs[index]))
    {
      k := k + 1;
    }
  }

  /** Blanks one more span in place. */
  method BlankSpan(characters: array<char>, span: Range, ghost text: string, ghost done: seq<Range>)
    requires span.end <= characters.Length && characters[..] == Blank(text, done)
    modifies characters
    ensures characters[..] == Blank(text, done + [span])
  {
    var p := span.start;
    while p < span.end
      invariant span.start <= p && (p <= span.end || p == span.start)
      invariant forall q :: 0 <= q < characters.Length ==>
        characters[q] == if span.start <= q < p && text[q] !in {'\n', '\r'} then ' ' else Blank(text, done)[q]
    {
      if characters[p] != '\n' && characters[p] != '\r' { characters[p] := ' '; }
      p := p + 1;
    }
    forall q | 0 <= q < characters.Length ensures characters[q] == Blank(text, done + [span])[q] {
      WithinAppend(q, done, span);
    }
  }

  lemma WithinAppend(p: int, done: seq<Range>, span: Range)
    ensures Within(p, done + [span]) <==> Within(p, done) || span.start <= p < span.end
  {
    var all := done + [span];
    if Within(p, done) {
      var k :| 0 <= k < |done| && Inside(p, done[k]);
      assert all[k] == done[k];
    }
    assert all[|done|] == span;
  }

  /** The spans found so far and those still ahead of the index are all the spans. */
  ghost predicate Progress(text: string, runs: seq<Range>, index: nat, done: seq<Range>) {
    AreRuns(text, runs) && index <= |runs| && done + Spans(text, runs, index) == SpansOf(text)
  }

  lemma PassOver(text: string, runs: seq<Range>, index: nat, done: seq<Range>)
    requires Progress(text, runs, index, done) && index < |runs| && runs[index].start <= |text|
    requires Escaped(text, runs[index].start) || Closer(runs, index + 1, Size(runs[index])) == |runs|
    ensures Progress(text, runs, index + 1, done)
  {
    SkipsOne(text, runs, index, Closer(runs, index + 1, Size(runs[index])));
  }

  lemma TakeSpan(text: string, runs: seq<Range>, index: nat, closer: nat, done: seq<Range>)
    requires Progress(text, runs, index, done) && index < |runs| && runs[index].start <= |text|
    requires !Escaped(text, runs[index].start) && closer == Closer(runs, index + 1, Size(runs[index])) < |runs|
    ensures Progress(text, runs, closer + 1, done + [Range(runs[index].start, runs[closer].end)])
  {
    SkipsOne(text, runs, index, closer);
    var span := Range(runs[index].start, runs[closer].end);
    var later := Spans(text, runs, closer + 1);
    assert done + [span] + later == done + ([span] + later);
  }

  lemma BlankNothing(text: string)
    ensures Blank(text, []) == text
  {
  }

  /** The run that closes the span opened by the run at `index`, or none. */
  method FindMatch(text: string, runs: seq<Range>, index: nat) returns (closer: nat)
    requires index < |runs| && runs[index].start <= |text|
    ensures closer == if Escaped(text, runs[index].start) then |runs| else Closer(runs, index + 1, Size(runs[index]))
  {
    var backslashes := CountBackslashes(text, runs[index].start);
    if backslashes % 2 == 1 { return |runs|; }
    closer := FindCloser(runs, index);
  }

  method StripInlineCodeSpans(text: string) returns (result: string)
    ensures result == Strip(text)
  {
    var runs := Runs(text, 0);
    RunsAreRuns(text, 0);
    var characters := new char[|text|](i requires 0 <= i < |text| => text[i]);
    ghost var done: seq<Range> := [];
    BlankNothing(text);
    assert characters[..] == text;
    assert [] + Spans(text, runs, 0) == SpansOf(text);
    var index := 0;
    while index < |runs|
      invariant index <= |runs|
      invariant characters[..] == Blank(text, done)
      invariant Progress(text, runs, index, done)
    {
      assert IsRun(text, runs[index]);
      var closer := FindMatch(text, runs, index);
      if closer == |runs| {
        PassOver(text, runs, index, done);
        index := index + 1;
      } else {
        assert IsRun(text, runs[closer]);
        var span := Range(runs[index].start, runs[closer].end);
        BlankSpan(characters, span, text, done);
        TakeSpan(text, runs, index, closer, done);
        done := done + [span];
        index := closer + 1;
      }
    }
    assert Spans(text, runs, index) == [] && done + [] == done;
    result := characters[..];
  }
}
