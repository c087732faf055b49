/** File names of completion markers, and which node ids keep the files of a route apart. */
module MarkerPaths {
  import opened Prelude
  import opened MarkerModel

  function Digit(n: nat): char
    requires n < 10
  {
    '0' + n as char
  }

  function Decimal(n: nat): (s: string)
    ensures s != "" && NoDot(s)
  {
    if n < 10 then [Digit(n)] else Decimal(n / 10) + [Digit(n % 10)]
  }

  predicate NoDot(s: string) {
    forall i :: 0 <= i < |s| ==> s[i] != '.'
  }

  function Value(s: string): int {
    if s == "" then 0 else 10 * Value(s[..|s| - 1]) + (s[|s| - 1] as int - '0' as int)
  }

  lemma {:induction false} DecimalValue(n: nat)
    ensures Value(Decimal(n)) == n
  {
    var s := Decimal(n);
    if n < 10 {
      assert s[..0] == "";
    } else {
      DecimalValue(n / 10);
      assert s[..|s| - 1] == Decimal(n / 10);
    }
  }

  /** The part of the name behind the node id and its dot. */
  function Rest(p: Path): string {
    match p
    case Canonical(_) => "json"
    case History(_, n) => Decimal(n) + ".json"
    case AttemptLink(_, safe) => safe + ".attempt.json"
    case NodeLink(_) => "attempt.json"
  }

  function FileName(p: Path): string {
    p.node + "." + Rest(p)
  }

  /** Two splits of one text at a dot: the heads are equal, or one head continues the other. */
  lemma SplitAtDot(a: string, r: string, b: string, t: string)
    requires a + "." + r == b + "." + t && |a| <= |b|
    ensures a == b ==> r == t
    ensures a != b ==> a + "." <= b && r == b[|a| + 1..] + "." + t
  {
    var x := a + "." + r;
    assert x == b + "." + t;
    assert x[..|a|] == a && x[|a|] == '.' && x[|a| + 1..] == r;
    assert x[..|b|] == b && x[|b|] == '.' && x[|b| + 1..] == t;
    if |a| == |b| {
      assert a == b;
    } else {
      assert x[..|b|][..|a| + 1] == a + ".";
      assert r == x[|a| + 1..|b|] + x[|b|..] && x[|b|..] == "." + t;
      assert b[|a| + 1..] == x[|a| + 1..|b|];
    }
  }

  lemma DropTail(a: string, b: string, tail: string)
    requires a + tail == b + tail
    ensures a == b
  {
    assert a == (a + tail)[..|a|] && b == (b + tail)[..|b|];
  }

  /** What stands in front of the last `.json` of the rest; empty for the canonical marker. */
  function Middle(p: Path): string {
    match p
    case Canonical(_) => ""
    case History(_, n) => Decimal(n)
    case AttemptLink(_, safe) => safe + ".attempt"
    case NodeLink(_) => "attempt"
  }

  lemma RestIsMiddle(p: Path)
    requires !p.Canonical?
    ensures Rest(p) == Middle(p) + ".json"
  {
    if p.AttemptLink? { assert p.safe + ".attempt.json" == p.safe + ".attempt" + ".json"; }
  }

  lemma {:induction false} DecimalIsDigits(n: nat)
    ensures forall i :: 0 <= i < |Decimal(n)| ==> '0' <= Decimal(n)[i] <= '9'
  {
    if n >= 10 { DecimalIsDigits(n / 10); }
  }

  lemma MiddlesDiffer(p: Path, q: Path)
    requires !p.Canonical? && !q.Canonical? && p.node == q.node && Middle(p) == Middle(q)
    ensures p == q
  {
    assert forall s: string :: (s + ".attempt")[|s|] == '.';
    if p.AttemptLink? && q.AttemptLink? { DropTail(p.safe, q.safe, ".attempt"); }
    if p.History? && q.History? {
      DecimalValue(p.sequence);
      DecimalValue(q.sequence);
    }
    if p.History? && q.NodeLink? { DecimalIsDigits(p.sequence); }
    if q.History? && p.NodeLink? { DecimalIsDigits(q.sequence); }
  }

  /** Files of one node never share a name. */
  lemma RestsDiffer(p: Path, q: Path)
    requires p.node == q.node && Rest(p) == Rest(q)
    ensures p == q
  {
    if p.Canonical? {
      RestHasDot(q);
    } else if q.Canonical? {
      RestHasDot(p);
    } else {
      RestIsMiddle(p);
      RestIsMiddle(q);
      DropTail(Middle(p), Middle(q), ".json");
      MiddlesDiffer(p, q);
    }
  }

  lemma RestHasDot(p: Path)
    ensures !p.Canonical? <==> !NoDot(Rest(p))
  {
    if !p.Canonical? {
      RestIsMiddle(p);
      assert Rest(p)[|Middle(p)|] == '.';
    }
  }

  /* ---- Which node ids keep their files apart ---- */

  /** A rule for the characters of an attempt id that stay in its file name: in ASCII the letters, the
      digits and `._-`; elsewhere as it likes. */
  ghost predicate NamingRule(keeps: char -> bool) {
    forall c: char :: c as int < 128 ==> (keeps(c) <==> 'a' <= c <= 'z' || 'A' <= c <= 'Z' || '0' <= c <= '9' || c in "._-")
  }

  /** Unchanged by the rule. */
  predicate Safe(keeps: char -> bool, s: string) {
    forall i :: 0 <= i < |s| ==> keeps(s[i])
  }

  /** A file that some call may write: numbers start at one, and no attempt id is empty. */
  predicate Writable(keeps: char -> bool, p: Path) {
    match p
    case History(_, n) => n >= 1
    case AttemptLink(_, safe) => safe != "" && Safe(keeps, safe)
    case _ => true
  }

  /** `b` is `a`, a dot, and text that could stand in an attempt's file name. */
  predicate Extends(keeps: char -> bool, a: NodeId, b: NodeId) {
    a + "." <= b && Safe(keeps, b[|a| + 1..])
  }

  predicate NoneExtends(keeps: char -> bool, ids: set<NodeId>) {
    forall a, b :: a in ids && b in ids ==> !Extends(keeps, a, b)
  }

  ghost predicate NamesDistinct(keeps: char -> bool, ids: set<NodeId>) {
    forall p: Path, q: Path ::
      p.node in ids && q.node in ids && Writable(keeps, p) && Writable(keeps, q) && FileName(p) == FileName(q) ==> p == q
  }

  lemma SafeJoin(keeps: char -> bool, a: string, b: string)
    ensures Safe(keeps, a + b) <==> Safe(keeps, a) && Safe(keeps, b)
  {
    var c := a + b;
    assert forall i :: 0 <= i < |a| ==> c[i] == a[i];
    assert forall i :: 0 <= i < |b| ==> c[|a| + i] == b[i];
  }

  lemma RestIsSafe(keeps: char -> bool, p: Path)
    requires NamingRule(keeps) && Writable(keeps, p)
    ensures Safe(keeps, Rest(p))
  {
    assert Safe(keeps, "json") && Safe(keeps, ".json") && Safe(keeps, ".attempt.json") && Safe(keeps, "attempt.json");
    match p
    case History(_, n) =>
      DecimalIsDigits(n);
      SafeJoin(keeps, Decimal(n), ".json");
    case AttemptLink(_, safe) => SafeJoin(keeps, safe, ".attempt.json");
    case _ =>
  }

  lemma SameNameExtends(keeps: char -> bool, p: Path, q: Path)
    requires NamingRule(keeps) && Writable(keeps, p) && FileName(p) == FileName(q) && |p.node| <= |q.node|
    ensures p == q || Extends(keeps, p.node, q.node)
  {
    SplitAtDot(p.node, Rest(p), q.node, Rest(q));
    if p.node == q.node {
      RestsDiffer(p, q);
    } else {
      RestIsSafe(keeps, p);
      var s := q.node[|p.node| + 1..];
      SafeJoin(keeps, s + ".", Rest(q));
      SafeJoin(keeps, s, ".");
    }
  }

  /** An attempt of the shorter node takes the link of attempt `x` of the longer one. */
  lemma ExtendsCollides(keeps: char -> bool, a: NodeId, b: NodeId)
    requires NamingRule(keeps) && Extends(keeps, a, b)
    ensures var p, q := AttemptLink(a, b[|a| + 1..] + ".x"), AttemptLink(b, "x");
            Writable(keeps, p) && Writable(keeps, q) && p != q && FileName(p) == FileName(q)
  {
    var s := b[|a| + 1..];
    assert b == a + "." + s;
    assert Safe(keeps, ".x") && Safe(keeps, "x");
    SafeJoin(keeps, s, ".x");
    assert s + ".x" != "";
    assert a + "." + (s + ".x" + ".attempt.json") == a + "." + s + "." + ("x" + ".attempt.json");
  }

  /** Whatever letters a rule keeps outside ASCII: the files of a set of nodes have different names
      exactly if no node id continues another with a dot and characters that the rule keeps. */
  lemma NamesDistinctExactly(keeps: char -> bool, ids: set<NodeId>)
    requires NamingRule(keeps)
    ensures NamesDistinct(keeps, ids) <==> NoneExtends(keeps, ids)
  {
    if NoneExtends(keeps, ids) {
      forall p: Path, q: Path |
        p.node in ids && q.node in ids && Writable(keeps, p) && Writable(keeps, q) && FileName(p) == FileName(q)
        ensures p == q
      {
        if |p.node| <= |q.node| { SameNameExtends(keeps, p, q); } else { SameNameExtends(keeps, q, p); }
      }
    }
    if NamesDistinct(keeps, ids) {
      forall a, b | a in ids && b in ids ensures !Extends(keeps, a, b) {
        if Extends(keeps, a, b) { ExtendsCollides(keeps, a, b); }
      }
    }
  }

  /** Attempt ids are named by such a rule: their file names hold kept characters only, and a name of
      kept characters only is some attempt's. */
  lemma AttemptsAreNamed(attempt: Attempt)
    ensures NamingRule(KeptChar) && Safe(KeptChar, SafeName(attempt))
    ensures SafeName(attempt) == attempt <==> Safe(KeptChar, attempt)
  {
    assert KeptChar('_');
    var name := SafeName(attempt);
    forall i | 0 <= i < |attempt| ensures name[i] == SafeChar(attempt[i]) {}
  }

  lemma ContinuedHasDot(a: string, b: string)
    requires a + "." <= b
    ensures !NoDot(b)
  {
    assert b[|a|] == '.';
  }

  /** Ids without dots keep all files apart. */
  lemma DotlessIdsDistinct(keeps: char -> bool, ids: set<NodeId>)
    requires NamingRule(keeps) && forall a :: a in ids ==> NoDot(a)
    ensures NamesDistinct(keeps, ids)
  {
    NamesDistinctExactly(keeps, ids);
    forall a, b | a in ids && b in ids ensures !Extends(keeps, a, b) {
      if a + "." <= b { ContinuedHasDot(a, b); }
    }
  }

  lemma CollisionRefutes(keeps: char -> bool, ids: set<NodeId>, p: Path, q: Path)
    requires p.node in ids && q.node in ids && Writable(keeps, p) && Writable(keeps, q) && p != q && FileName(p) == FileName(q)
    ensures !NamesDistinct(keeps, ids)
  {
  }

  /** With a dot in a node id two kinds of files may share a name. */
  lemma DottedNamesCollide(keeps: char -> bool, ids: set<NodeId>)
    requires "a" in ids && "a.1" in ids
    ensures FileName(Canonical("a.1")) == FileName(History("a", 1)) && !NamesDistinct(keeps, ids)
  {
    assert Decimal(1) == "1";
    assert "a.1" + "." + "json" == "a" + "." + ("1" + ".json");
    CollisionRefutes(keeps, ids, Canonical("a.1"), History("a", 1));
  }
}
