/** Which spans are blanked, and with what, told in the characters and backtick runs of the text. */
module CodeSpanRules {
  import opened CodeSpans

  /* ---- Escapes ---- */

  /** Exactly `n` backslashes stand in front of the position. */
  predicate BackslashRun(text: string, p: nat, n: nat)
    requires n <= p <= |text|
  {
    (forall q :: p - n <= q < p ==> text[q] == '\\') && (n < p ==> text[p - n - 1] != '\\')
  }

  predicate OddlyEscaped(text: string, p: nat)
    requires p <= |text|
  {
    exists n :: 0 <= n <= p && n % 2 == 1 && BackslashRun(text, p, n)
  }

  lemma {:induction false} BackslashesCounted(text: string, p: nat)
    requires p <= |text|
    ensures Backslashes(text, p) <= p && BackslashRun(text, p, Backslashes(text, p))
    decreases p
  {
    if p > 0 && text[p - 1] == '\\' { BackslashesCounted(text, p - 1); }
  }

  lemma OneCount(text: string, p: nat, m: nat, n: nat)
    requires m <= n <= p <= |text| && BackslashRun(text, p, m) && BackslashRun(text, p, n)
    ensures m == n
  {
    assert m < n ==> p - n <= p - m - 1 < p;
  }

  lemma EscapedExactly(text: string, p: nat)
    requires p <= |text|
    ensures Escaped(text, p) <==> OddlyEscaped(text, p)
  {
    var m := Backslashes(text, p);
    BackslashesCounted(text, p);
    if n :| 0 <= n <= p && n % 2 == 1 && BackslashRun(text, p, n) {
      if m <= n { OneCount(text, p, m, n); } else { OneCount(text, p, n, m); }
    }
  }

  /* ---- Pairs ---- */

  datatype Pair = Pair(opener: nat, closer: nat)

  /** An opener that is not escaped, and the first later run of its length. */
  predicate Pairs(text: string, runs: seq<Range>, m: Pair) {
    && m.opener < m.closer < |runs| && runs[m.opener].start <= |text| && !OddlyEscaped(text, runs[m.opener].start)
    && Length(runs, m.closer) == Length(runs, m.opener)
    && forall j :: m.opener < j < m.closer ==> Length(runs, j) != Length(runs, m.opener)
  }

  function Length(runs: seq<Range>, j: nat): int
    requires j < |runs|
  {
    runs[j].end - runs[j].start
  }

  /** The run opens no span: it is escaped, or no later run has its length. */
  predicate CannotOpen(text: string, runs: seq<Range>, j: nat)
    requires j < |runs|
  {
    (runs[j].start <= |text| && OddlyEscaped(text, runs[j].start)) || forall k :: j < k < |runs| ==> Length(runs, k) != Length(runs, j)
  }

  predicate InPair(j: nat, pairs: seq<Pair>) {
    exists k :: 0 <= k < |pairs| && pairs[k].opener <= j <= pairs[k].closer
  }

  /** From the `from`-th run on, spans follow each other and skip no run that could open one. */
  predicate Greedy(text: string, runs: seq<Range>, from: nat, pairs: seq<Pair>) {
    && (forall k :: 0 <= k < |pairs| ==> from <= pairs[k].opener && Pairs(text, runs, pairs[k]))
    && (forall j, k :: 0 <= j < k < |pairs| ==> pairs[j].closer < pairs[k].opener)
    && forall j :: from <= j < |runs| ==> InPair(j, pairs) || CannotOpen(text, runs, j)
  }

  predicate SpansOf(runs: seq<Range>, pairs: seq<Pair>, spans: seq<Range>) {
    && |spans| == |pairs|
    && forall k :: 0 <= k < |pairs| ==>
         pairs[k].opener < |runs| && pairs[k].closer < |runs| && spans[k].start == runs[pairs[k].opener].start && spans[k].end == runs[pairs[k].closer].end
  }

  predicate GreedySpans(text: string, runs: seq<Range>, from: nat, pairs: seq<Pair>, spans: seq<Range>) {
    Greedy(text, runs, from, pairs) && SpansOf(runs, pairs, spans)
  }

  lemma {:induction false} SpansAreGreedy(text: string, runs: seq<Range>, i: nat) returns (pairs: seq<Pair>)
    requires AreRuns(text, runs) && i <= |runs|
    ensures GreedySpans(text, runs, i, pairs, Spans(text, runs, i))
    decreases |runs| - i
  {
    pairs := [];
    if i < |runs| {
      var k := Closer(runs, i + 1, Size(runs[i]));
      assert IsRun(text, runs[i]);
      if Escaped(text, runs[i].start) || k == |runs| {
        pairs := SpansAreGreedy(text, runs, i + 1);
        SkipStep(text, runs, i, pairs);
      } else {
        var later := SpansAreGreedy(text, runs, k + 1);
        PairStep(text, runs, i, later);
        pairs := [Pair(i, k)] + later;
      }
    }
  }

  lemma {:induction false} SkipStep(text: string, runs: seq<Range>, i: nat, pairs: seq<Pair>)
    requires AreRuns(text, runs) && i < |runs| && runs[i].start <= |text|
    requires Escaped(text, runs[i].start) || Closer(runs, i + 1, Size(runs[i])) == |runs|
    requires GreedySpans(text, runs, i + 1, pairs, Spans(text, runs, i + 1))
    ensures GreedySpans(text, runs, i, pairs, Spans(text, runs, i))
  {
    var k := Closer(runs, i + 1, Size(runs[i]));
    EscapedExactly(text, runs[i].start);
    SkipsOne(text, runs, i, k);
    SkipIsGreedy(text, runs, i, k, pairs);
  }

  lemma {:induction false} PairStep(text: string, runs: seq<Range>, i: nat, later: seq<Pair>)
    requires AreRuns(text, runs) && i < |runs| && runs[i].start <= |text|
    requires !Escaped(text, runs[i].start) && Closer(runs, i + 1, Size(runs[i])) < |runs|
    requires var k := Closer(runs, i + 1, Size(runs[i])); GreedySpans(text, runs, k + 1, later, Spans(text, runs, k + 1))
    ensures var k := Closer(runs, i + 1, Size(runs[i])); GreedySpans(text, runs, i, [Pair(i, k)] + later, Spans(text, runs, i))
  {
    var k := Closer(runs, i + 1, Size(runs[i]));
    EscapedExactly(text, runs[i].start);
    SkipsOne(text, runs, i, k);
    PairIsGreedy(text, runs, i, k, later);
    FirstSpan(runs, i, k, later, Spans(text, runs, k + 1));
  }

  lemma {:induction false} FirstSpan(runs: seq<Range>, i: nat, k: nat, later: seq<Pair>, spans: seq<Range>)
    requires i < |runs| && k < |runs| && SpansOf(runs, later, spans)
    ensures SpansOf(runs, [Pair(i, k)] + later, [Range(runs[i].start, runs[k].end)] + spans)
  {
  }

  lemma {:induction false} SkipIsGreedy(text: string, runs: seq<Range>, i: nat, k: nat, pairs: seq<Pair>)
    requires i < |runs| && runs[i].start <= |text| && k == Closer(runs, i + 1, Size(runs[i])) && Greedy(text, runs, i + 1, pairs)
    requires OddlyEscaped(text, runs[i].start) || k == |runs|
    ensures Greedy(text, runs, i, pairs)
  {
    if k == |runs| {
      forall j | i < j < |runs| ensures Length(runs, j) != Length(runs, i) { assert Size(runs[j]) != Size(runs[i]); }
    }
    assert CannotOpen(text, runs, i);
  }

  lemma {:induction false} PairIsGreedy(text: string, runs: seq<Range>, i: nat, k: nat, later: seq<Pair>)
    requires i < |runs| && runs[i].start <= |text| && !OddlyEscaped(text, runs[i].start)
    requires k == Closer(runs, i + 1, Size(runs[i])) && k < |runs| && Greedy(text, runs, k + 1, later)
    ensures Greedy(text, runs, i, [Pair(i, k)] + later)
  {
    var pairs := [Pair(i, k)] + later;
    assert Pairs(text, runs, Pair(i, k)) by {
      forall j | i < j < k ensures Length(runs, j) != Length(runs, i) { assert Size(runs[j]) != Size(runs[i]); }
    }
    forall j | i <= j < |runs| ensures InPair(j, pairs) || CannotOpen(text, runs, j) {
      if j <= k {
        assert pairs[0].opener <= j <= pairs[0].closer;
      } else if InPair(j, later) {
        var m :| 0 <= m < |later| && later[m].opener <= j <= later[m].closer;
        assert pairs[m + 1] == later[m];
      }
    }
  }

  /* ---- What is written ---- */

  predicate InSpan(runs: seq<Range>, pairs: seq<Pair>, p: int) {
    exists k :: 0 <= k < |pairs| && pairs[k].opener < |runs| && pairs[k].closer < |runs|
                && runs[pairs[k].opener].start <= p < runs[pairs[k].closer].end
  }

  /** The blanked text, character by character: blanks in the spans but for line breaks, and nothing
      else changed. */
  lemma StripExactly(text: string) returns (pairs: seq<Pair>)
    ensures var runs := Runs(text, 0);
            && AreRuns(text, runs) && Greedy(text, runs, 0, pairs)
            && |Strip(text)| == |text|
            && forall p :: 0 <= p < |text| ==>
                 Strip(text)[p] == if InSpan(runs, pairs, p) && text[p] != '\n' && text[p] != '\r' then ' ' else text[p]
  {
    var runs := Runs(text, 0);
    RunsAreRuns(text, 0);
    pairs := SpansAreGreedy(text, runs, 0);
    var spans := Spans(text, runs, 0);
    forall p | 0 <= p < |text| ensures Within(p, spans) <==> InSpan(runs, pairs, p) { InSpanIs(runs, pairs, spans, p); }
  }

  lemma InSpanIs(runs: seq<Range>, pairs: seq<Pair>, spans: seq<Range>, p: int)
    requires SpansOf(runs, pairs, spans)
    ensures Within(p, spans) <==> InSpan(runs, pairs, p)
  {
    if Within(p, spans) { var k :| 0 <= k < |spans| && Inside(p, spans[k]); }
    if InSpan(runs, pairs, p) {
      var k :| 0 <= k < |pairs| && pairs[k].opener < |runs| && pairs[k].closer < |runs|
               && runs[pairs[k].opener].start <= p < runs[pairs[k].closer].end;
      assert Inside(p, spans[k]);
    }
  }
}
