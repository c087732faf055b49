/** The result of the expansion in closed form: every node of the recipe becomes a row of legs, and
    every node gains the legs of the anchors it already depended on. */
module ExpansionForm {
  import opened Prelude
  import opened Lists
  import opened Graph
  import opened RouteNodes
  import opened Scopes
  import opened Expansion

  /** A group with the legs it has at the tier. */
  datatype Real = Real(group: Group, legs: seq<LegSpec>)

  function Anchor(r: Real): Id {
    r.group.node
  }

  function RealPart(g: Group, tier: Tier): seq<Real> {
    if !ValidGroup(g, tier) || RealLegs(g, tier) == [] then [] else [Real(g, RealLegs(g, tier))]
  }

  function RealAt(tier: Tier): Group -> seq<Real> {
    (g: Group) => RealPart(g, tier)
  }

  /** The groups that have legs at the tier. */
  function Realized(groups: seq<Group>, tier: Tier): seq<Real> {
    Concat(groups, RealAt(tier))
  }

  /** What the recipe validator guarantees, and that no new leg takes the name of a node. */
  predicate Realizable(ns: seq<Node>, gs: seq<Real>) {
    && UniqueIds(ns)
    && (forall i :: 0 <= i < |ns| ==> ns[i].id !in ns[i].deps)
    && (forall k :: 0 <= k < |gs| ==> |gs[k].legs| >= 2 && HasId(ns, Anchor(gs[k])))
    && (forall j, k :: 0 <= j < k < |gs| ==> Anchor(gs[j]) != Anchor(gs[k]))
    && (forall k :: 0 <= k < |gs| ==> NamesNew(ns, gs[k]))
  }

  predicate NamesNew(ns: seq<Node>, r: Real) {
    forall x :: x in NewIds(Anchor(r), r.legs) ==> !HasId(ns, x)
  }

  function Own(gs: seq<Real>, id: Id): Option<Real> {
    if gs == [] then None
    else if Anchor(gs[|gs| - 1]) == id then Some(gs[|gs| - 1])
    else Own(gs[..|gs| - 1], id)
  }

  function GainPart(n: Node, r: Real): seq<Id> {
    if Anchor(r) in n.deps then NewIds(Anchor(r), r.legs) else []
  }

  function GainOf(n: Node): Real -> seq<Id> {
    (r: Real) => GainPart(n, r)
  }

  /** The new legs of all anchors a node depends on. */
  function Gains(n: Node, gs: seq<Real>): seq<Id> {
    Concat(gs, GainOf(n))
  }

  function InputsFrom(base: Node, legs: seq<LegSpec>): seq<string>
    requires legs != []
  {
    if base.kind == ReviewWorker then [] else NewOutputs(base.outputs, legs)
  }

  function InputPart(ns: seq<Node>, n: Node, r: Real): seq<string> {
    if Anchor(r) in n.deps && HasId(ns, Anchor(r)) && r.legs != [] then InputsFrom(Find(ns, Anchor(r)), r.legs) else []
  }

  function InputOf(ns: seq<Node>, n: Node): Real -> seq<string> {
    (r: Real) => InputPart(ns, n, r)
  }

  function GainedInputs(ns: seq<Node>, n: Node, gs: seq<Real>): seq<string> {
    Concat(gs, InputOf(ns, n))
  }

  function Grown(ns: seq<Node>, n: Node, gs: seq<Real>): Node {
    n.(deps := n.deps + Gains(n, gs), inputs := n.inputs + GainedInputs(ns, n, gs))
  }

  /** The legs a node of the recipe ends up as. */
  function Row(ns: seq<Node>, gs: seq<Real>, n: Node): seq<Node> {
    match Own(gs, n.id)
    case None => [Grown(ns, n, gs)]
    case Some(r) => Legs(Grown(ns, n, gs), r.group, r.legs, 0)
  }

  function Rows(ns: seq<Node>, gs: seq<Real>, rest: seq<Node>): seq<Node> {
    if rest == [] then [] else Row(ns, gs, rest[0]) + Rows(ns, gs, rest[1..])
  }

  /* ---- Small facts ---- */

  lemma {:induction false} OwnIs(gs: seq<Real>, id: Id)
    ensures Own(gs, id).Some? ==> Anchor(Own(gs, id).value) == id && Own(gs, id).value in gs
    ensures Own(gs, id).None? ==> forall k :: 0 <= k < |gs| ==> Anchor(gs[k]) != id
  {
    if gs != [] { OwnIs(gs[..|gs| - 1], id); }
  }

  lemma GainsAre(n: Node, gs: seq<Real>, x: Id)
    ensures x in Gains(n, gs) <==>
            exists k :: 0 <= k < |gs| && Anchor(gs[k]) in n.deps && x in NewIds(Anchor(gs[k]), gs[k].legs)
  {
    InConcat(gs, GainOf(n), x);
    if k :| 0 <= k < |gs| && Anchor(gs[k]) in n.deps && x in NewIds(Anchor(gs[k]), gs[k].legs) {
      assert x in GainOf(n)(gs[k]);
    }
  }

  lemma GainsAreNew(ns: seq<Node>, gs: seq<Real>, n: Node, x: Id)
    requires (forall k :: 0 <= k < |gs| ==> NamesNew(ns, gs[k])) && HasId(ns, x)
    ensures x !in Gains(n, gs)
  {
    GainsAre(n, gs, x);
  }

  function StepNode(n: Node, base: Node, g: Group, legs: seq<LegSpec>): seq<Node>
    requires legs != []
  {
    if n.id == base.id then Legs(n, g, legs, 0) else [Consume(n, base, legs)]
  }

  /** A step in which every node of the anchor's name becomes the legs. */
  function StepEach(nodes: seq<Node>, base: Node, g: Group, legs: seq<LegSpec>): seq<Node>
    requires legs != []
  {
    if nodes == [] then [] else StepNode(nodes[0], base, g, legs) + StepEach(nodes[1..], base, g, legs)
  }

  lemma {:induction false} StepEachJoin(a: seq<Node>, b: seq<Node>, base: Node, g: Group, legs: seq<LegSpec>)
    requires legs != []
    ensures StepEach(a + b, base, g, legs) == StepEach(a, base, g, legs) + StepEach(b, base, g, legs)
  {
    if a == [] {
      assert [] + b == b;
    } else {
      assert (a + b)[0] == a[0] && (a + b)[1..] == a[1..] + b;
      StepEachJoin(a[1..], b, base, g, legs);
      Associate(StepNode(a[0], base, g, legs), StepEach(a[1..], base, g, legs), StepEach(b, base, g, legs));
    }
  }

  /* ---- One more group ---- */

  /** The facts one more group needs of the ones already applied. */
  predicate Ready(ns: seq<Node>, gs: seq<Real>, r: Real) {
    HasId(ns, Anchor(r)) && Realizable(ns, gs + [r])
  }

  lemma ReadyParts(ns: seq<Node>, gs: seq<Real>, r: Real)
    requires Ready(ns, gs, r)
    ensures Realizable(ns, gs) && |r.legs| >= 2 && HasId(ns, Anchor(r)) && NamesNew(ns, r) && Own(gs, Anchor(r)).None?
  {
    var all := gs + [r];
    assert all[|gs|] == r;
    assert forall k :: 0 <= k < |gs| ==> all[k] == gs[k] && Anchor(all[k]) != Anchor(all[|gs|]);
    OwnIs(gs, Anchor(r));
  }

  /** A base as `Consume` sees it. */
  predicate SameBase(a: Node, b: Node) {
    a.id == b.id && a.kind == b.kind && a.outputs == b.outputs
  }

  lemma ConsumeGrown(ns: seq<Node>, gs: seq<Real>, r: Real, n: Node, base: Node)
    requires Ready(ns, gs, r) && SameBase(base, Find(ns, Anchor(r)))
    ensures r.legs != [] && Consume(Grown(ns, n, gs), base, r.legs) == Grown(ns, n, gs + [r])
  {
    ReadyParts(ns, gs, r);
    GainsAreNew(ns, gs, n, Anchor(r));
    ConcatAppend(gs, r, GainOf(n));
    ConcatAppend(gs, r, InputOf(ns, n));
    assert base.id in Grown(ns, n, gs).deps <==> Anchor(r) in n.deps;
    if Anchor(r) in n.deps {
      Associate(n.deps, Gains(n, gs), NewIds(Anchor(r), r.legs));
      Associate(n.inputs, GainedInputs(ns, n, gs), InputsFrom(Find(ns, Anchor(r)), r.legs));
    } else {
      assert Gains(n, gs) + [] == Gains(n, gs) && GainedInputs(ns, n, gs) + [] == GainedInputs(ns, n, gs);
    }
  }

  lemma ConsumeLeg(n: Node, own: Group, ownLegs: seq<LegSpec>, i: nat, base: Node, legs: seq<LegSpec>)
    requires i < |ownLegs| && legs != []
    ensures Consume(MakeLeg(n, own, ownLegs, i), base, legs) == MakeLeg(Consume(n, base, legs), own, ownLegs, i)
  {
  }

  lemma {:induction false} StepEachOthers(nodes: seq<Node>, base: Node, g: Group, legs: seq<LegSpec>)
    requires legs != [] && forall k :: 0 <= k < |nodes| ==> nodes[k].id != base.id
    ensures StepEach(nodes, base, g, legs) == seq(|nodes|, k requires 0 <= k < |nodes| => Consume(nodes[k], base, legs))
  {
    if nodes != [] { StepEachOthers(nodes[1..], base, g, legs); }
  }

  predicate AtMostOnce(nodes: seq<Node>, id: Id) {
    forall i, j :: 0 <= i < j < |nodes| ==> nodes[i].id != id || nodes[j].id != id
  }

  /** Where the anchor's name occurs once, that makes no difference. */
  lemma {:induction false} StepOnce(nodes: seq<Node>, base: Node, g: Group, legs: seq<LegSpec>)
    requires legs != [] && AtMostOnce(nodes, base.id)
    ensures StepAll(nodes, base, g, legs) == StepEach(nodes, base, g, legs)
  {
    if nodes != [] {
      var rest := nodes[1..];
      assert forall i :: 0 <= i < |rest| ==> rest[i] == nodes[i + 1];
      if nodes[0].id == base.id {
        forall k | 0 <= k < |rest| ensures rest[k].id != base.id { assert nodes[0].id != base.id || nodes[k + 1].id != base.id; }
        StepEachOthers(rest, base, g, legs);
      } else {
        StepOnce(rest, base, g, legs);
      }
    }
  }

  lemma ConsumeLegs(n: Node, own: Group, ownLegs: seq<LegSpec>, base: Node, g: Group, legs: seq<LegSpec>)
    requires legs != [] && forall k :: 0 <= k < |ownLegs| ==> LegName(n.id, ownLegs, k) != base.id
    ensures StepEach(Legs(n, own, ownLegs, 0), base, g, legs) == Legs(Consume(n, base, legs), own, ownLegs, 0)
  {
    var before := Legs(n, own, ownLegs, 0);
    StepEachOthers(before, base, g, legs);
    forall k | 0 <= k < |before| ensures Consume(before[k], base, legs) == Legs(Consume(n, base, legs), own, ownLegs, 0)[k] {
      ConsumeLeg(n, own, ownLegs, k, base, legs);
    }
  }

  lemma OtherNames(ns: seq<Node>, gs: seq<Real>, n: Node, own: Real, x: Id)
    requires Realizable(ns, gs) && own in gs && Anchor(own) == n.id && HasId(ns, x) && x != n.id
    ensures forall k :: 0 <= k < |own.legs| ==> LegName(n.id, own.legs, k) != x
  {
    forall k | 0 <= k < |own.legs| ensures LegName(n.id, own.legs, k) != x {
      if k > 0 { assert NewIds(n.id, own.legs)[k - 1] == LegName(n.id, own.legs, k); }
    }
  }

  lemma OwnAppend(gs: seq<Real>, r: Real, id: Id)
    ensures Own(gs + [r], id) == if Anchor(r) == id then Some(r) else Own(gs, id)
  {
    var all := gs + [r];
    assert all[..|all| - 1] == gs && all[|all| - 1] == r;
  }

  lemma StepOne(n: Node, base: Node, g: Group, legs: seq<LegSpec>)
    requires legs != []
    ensures StepEach([n], base, g, legs) == StepNode(n, base, g, legs)
  {
    assert [n][1..] == [];
    assert StepNode(n, base, g, legs) + [] == StepNode(n, base, g, legs);
  }

  /** The anchor of the new group becomes its legs. */
  lemma AnchorStep(ns: seq<Node>, gs: seq<Real>, r: Real, n: Node, base: Node)
    requires Ready(ns, gs, r) && n in ns && n.id == Anchor(r) && SameBase(base, Find(ns, Anchor(r)))
    ensures r.legs != [] && StepEach(Row(ns, gs, n), base, r.group, r.legs) == Row(ns, gs + [r], n)
  {
    ReadyParts(ns, gs, r);
    ConsumeGrown(ns, gs, r, n, base);
    OwnAppend(gs, r, n.id);
    NoSelf(ns, n);
    GainsAreNew(ns, gs, n, Anchor(r));
    assert Consume(Grown(ns, n, gs), base, r.legs) == Grown(ns, n, gs);
    StepOne(Grown(ns, n, gs), base, r.group, r.legs);
  }

  /** One more group turns the row of every node into its next form. */
  lemma RowStep(ns: seq<Node>, gs: seq<Real>, r: Real, n: Node, base: Node)
    requires Ready(ns, gs, r) && n in ns && SameBase(base, Find(ns, Anchor(r)))
    ensures r.legs != [] && StepEach(Row(ns, gs, n), base, r.group, r.legs) == Row(ns, gs + [r], n)
  {
    if n.id == Anchor(r) {
      AnchorStep(ns, gs, r, n, base);
    } else {
      ReadyParts(ns, gs, r);
      ConsumeGrown(ns, gs, r, n, base);
      OwnAppend(gs, r, n.id);
      OwnIs(gs, n.id);
      if Own(gs, n.id).Some? {
        var own := Own(gs, n.id).value;
        OtherNames(ns, gs, n, own, Anchor(r));
        ConsumeLegs(Grown(ns, n, gs), own.group, own.legs, base, r.group, r.legs);
      } else {
        StepOne(Grown(ns, n, gs), base, r.group, r.legs);
      }
    }
  }

  lemma NoSelf(ns: seq<Node>, n: Node)
    requires (forall i :: 0 <= i < |ns| ==> ns[i].id !in ns[i].deps) && n in ns
    ensures n.id !in n.deps
  {
  }

  lemma {:induction false} RowsStep(ns: seq<Node>, gs: seq<Real>, r: Real, rest: seq<Node>, base: Node)
    requires Ready(ns, gs, r) && (forall i :: 0 <= i < |rest| ==> rest[i] in ns) && SameBase(base, Find(ns, Anchor(r)))
    ensures r.legs != [] && StepEach(Rows(ns, gs, rest), base, r.group, r.legs) == Rows(ns, gs + [r], rest)
  {
    ReadyParts(ns, gs, r);
    if rest != [] {
      RowStep(ns, gs, r, rest[0], base);
      RowsStep(ns, gs, r, rest[1..], base);
      StepEachJoin(Row(ns, gs, rest[0]), Rows(ns, gs, rest[1..]), base, r.group, r.legs);
    }
  }

  /* ---- The base of one more group ---- */

  lemma {:induction false} RowsHold(ns: seq<Node>, gs: seq<Real>, rest: seq<Node>, m: Node)
    ensures m in Rows(ns, gs, rest) <==> exists i :: 0 <= i < |rest| && m in Row(ns, gs, rest[i])
  {
    if rest != [] {
      RowsHold(ns, gs, rest[1..], m);
      if m in Rows(ns, gs, rest[1..]) {
        var i :| 0 <= i < |rest[1..]| && m in Row(ns, gs, rest[1..][i]);
        assert rest[i + 1] == rest[1..][i];
      }
      if i :| 0 <= i < |rest| && m in Row(ns, gs, rest[i]) {
        if i > 0 { assert rest[1..][i - 1] == rest[i]; }
      }
    }
  }

  lemma AnchorRow(ns: seq<Node>, gs: seq<Real>, r: Real)
    requires Ready(ns, gs, r)
    ensures Grown(ns, Find(ns, Anchor(r)), gs) in Rows(ns, gs, ns)
  {
    ReadyParts(ns, gs, r);
    var n := Find(ns, Anchor(r));
    assert Row(ns, gs, n)[0] == Grown(ns, n, gs);
    RowsHold(ns, gs, ns, Grown(ns, n, gs));
  }

  lemma OnlyAnchor(ns: seq<Node>, gs: seq<Real>, r: Real, m: Node)
    requires Ready(ns, gs, r) && m in Rows(ns, gs, ns) && m.id == Anchor(r)
    ensures m == Grown(ns, Find(ns, Anchor(r)), gs)
  {
    ReadyParts(ns, gs, r);
    RowsHold(ns, gs, ns, m);
    var k :| 0 <= k < |ns| && m in Row(ns, gs, ns[k]);
    RowNames(ns, gs, ns[k], m, Anchor(r));
    FindUnique(ns, ns[k]);
  }

  /** Only the anchor itself carries its name, and no group applied so far has touched its outputs. */
  lemma AnchorInRows(ns: seq<Node>, gs: seq<Real>, r: Real)
    requires Ready(ns, gs, r)
    ensures HasId(Rows(ns, gs, ns), Anchor(r))
    ensures SameBase(Find(Rows(ns, gs, ns), Anchor(r)), Find(ns, Anchor(r)))
  {
    var rows := Rows(ns, gs, ns);
    AnchorRow(ns, gs, r);
    var j :| 0 <= j < |rows| && rows[j] == Grown(ns, Find(ns, Anchor(r)), gs);
    assert rows[j].id == Anchor(r);
    OnlyAnchor(ns, gs, r, Find(rows, Anchor(r)));
  }

  lemma RowNames(ns: seq<Node>, gs: seq<Real>, n: Node, m: Node, x: Id)
    requires Realizable(ns, gs) && n in ns && m in Row(ns, gs, n) && m.id == x && HasId(ns, x)
    ensures n.id == x
  {
    OwnIs(gs, n.id);
    if Own(gs, n.id).Some? && n.id != x {
      OtherNames(ns, gs, n, Own(gs, n.id).value, x);
    }
  }

  lemma JoinOnce(a: seq<Node>, b: seq<Node>, id: Id)
    requires AtMostOnce(a, id) && AtMostOnce(b, id)
    requires (forall i :: 0 <= i < |a| ==> a[i].id != id) || (forall i :: 0 <= i < |b| ==> b[i].id != id)
    ensures AtMostOnce(a + b, id)
  {
  }

  /** Only the anchor's own row has a node of its name. */
  lemma {:induction false} AnchorOnce(ns: seq<Node>, gs: seq<Real>, r: Real, rest: seq<Node>)
    requires Ready(ns, gs, r) && UniqueIds(rest) && forall i :: 0 <= i < |rest| ==> rest[i] in ns
    ensures AtMostOnce(Rows(ns, gs, rest), Anchor(r))
    ensures (forall i :: 0 <= i < |rest| ==> rest[i].id != Anchor(r)) ==>
              forall i :: 0 <= i < |Rows(ns, gs, rest)| ==> Rows(ns, gs, rest)[i].id != Anchor(r)
  {
    if rest != [] {
      var row, later := Row(ns, gs, rest[0]), rest[1..];
      assert forall i :: 0 <= i < |later| ==> later[i] == rest[i + 1];
      AnchorOnce(ns, gs, r, later);
      ReadyParts(ns, gs, r);
      if rest[0].id == Anchor(r) {
        assert row == [Grown(ns, rest[0], gs)];
        assert forall i :: 0 <= i < |later| ==> later[i].id != Anchor(r);
      } else {
        forall i | 0 <= i < |row| ensures row[i].id != Anchor(r) {
          assert row[i] in row;
          if row[i].id == Anchor(r) { RowNames(ns, gs, rest[0], row[i], Anchor(r)); }
        }
      }
      JoinOnce(row, Rows(ns, gs, later), Anchor(r));
    }
  }

  lemma OneMoreGroup(ns: seq<Node>, gs: seq<Real>, r: Real)
    requires Ready(ns, gs, r)
    ensures r.legs != [] && HasId(Rows(ns, gs, ns), Anchor(r))
    ensures var rows := Rows(ns, gs, ns);
            StepAll(rows, Find(rows, Anchor(r)), r.group, r.legs) == Rows(ns, gs + [r], ns)
  {
    ReadyParts(ns, gs, r);
    AnchorInRows(ns, gs, r);
    RowsStep(ns, gs, r, ns, Find(Rows(ns, gs, ns), Anchor(r)));
    AnchorOnce(ns, gs, r, ns);
    StepOnce(Rows(ns, gs, ns), Find(Rows(ns, gs, ns), Anchor(r)), r.group, r.legs);
  }

  /* ---- All groups ---- */

  lemma {:induction false} NothingGained(ns: seq<Node>, rest: seq<Node>)
    ensures Rows(ns, [], rest) == rest
  {
    if rest != [] {
      NothingGained(ns, rest[1..]);
      var n := rest[0];
      assert n.deps + [] == n.deps && n.inputs + [] == n.inputs;
      assert Row(ns, [], n) == [n];
    }
  }

  /** Groups without legs at the tier change nothing; the others come first in the list. */
  lemma RealizedHead(groups: seq<Group>, tier: Tier)
    requires groups != [] && ValidGroups(groups, tier)
    ensures var legs, rest := RealLegs(groups[0], tier), Realized(groups[1..], tier);
            Realized(groups, tier) == if legs == [] then rest else [Real(groups[0], legs)] + rest
  {
    assert Realized(groups, tier) == RealPart(groups[0], tier) + Realized(groups[1..], tier);
  }

  lemma RealizedFrom(groups: seq<Group>, tier: Tier, r: Real)
    requires ValidGroups(groups, tier) && r in Realized(groups, tier)
    ensures |r.legs| >= 2
    ensures exists j :: 0 <= j < |groups| && r.group == groups[j] && r.legs == RealLegs(groups[j], tier)
  {
    InConcat(groups, RealAt(tier), r);
    var j :| 0 <= j < |groups| && r in RealAt(tier)(groups[j]);
    assert r in RealPart(groups[j], tier);
  }

  predicate KeysApart(groups: seq<Group>, key: Group -> string) {
    forall j, k :: 0 <= j < k < |groups| ==> key(groups[j]) != key(groups[k])
  }

  /** What tells the groups apart tells the realized groups apart. */
  lemma {:induction false} RealizedApart(groups: seq<Group>, tier: Tier, key: Group -> string)
    requires ValidGroups(groups, tier) && KeysApart(groups, key)
    ensures var gs := Realized(groups, tier); forall j, k :: 0 <= j < k < |gs| ==> key(gs[j].group) != key(gs[k].group)
  {
    if groups != [] {
      var rest := groups[1..];
      assert forall k :: 0 <= k < |rest| ==> rest[k] == groups[k + 1];
      RealizedApart(rest, tier, key);
      var later := Realized(rest, tier);
      var first := RealPart(groups[0], tier);
      assert Realized(groups, tier) == first + later;
      forall k | 0 <= k < |later| ensures key(later[k].group) != key(groups[0]) {
        RealizedFrom(rest, tier, later[k]);
      }
    }
  }

  lemma ReadyNext(ns: seq<Node>, done: seq<Real>, r: Real, rest: seq<Real>)
    requires Realizable(ns, done + ([r] + rest))
    ensures Ready(ns, done, r) && done + ([r] + rest) == (done + [r]) + rest
  {
    assert done + ([r] + rest) == (done + [r]) + rest;
    RealizablePrefix(ns, done + [r], rest);
    assert (done + [r])[|done|] == r;
  }

  /** Applying group after group gives the closed form. */
  lemma {:induction false} ExpandFrom(ns: seq<Node>, done: seq<Real>, groups: seq<Group>, tier: Tier)
    requires ValidGroups(groups, tier) && Realizable(ns, done + Realized(groups, tier))
    ensures Expand(Rows(ns, done, ns), groups, tier) == Rows(ns, done + Realized(groups, tier), ns)
    decreases |groups|
  {
    if groups == [] {
      assert done + [] == done;
    } else {
      var legs := RealLegs(groups[0], tier);
      RealizedHead(groups, tier);
      if legs == [] {
        ExpandFrom(ns, done, groups[1..], tier);
      } else {
        var r := Real(groups[0], legs);
        ReadyNext(ns, done, r, Realized(groups[1..], tier));
        OneMoreGroup(ns, done, r);
        ExpandFrom(ns, done + [r], groups[1..], tier);
      }
    }
  }

  lemma RealizablePrefix(ns: seq<Node>, a: seq<Real>, b: seq<Real>)
    requires Realizable(ns, a + b)
    ensures Realizable(ns, a)
  {
    assert forall k :: 0 <= k < |a| ==> (a + b)[k] == a[k];
  }

  lemma ExpandIsClosedForm(ns: seq<Node>, groups: seq<Group>, tier: Tier)
    requires ValidGroups(groups, tier) && Realizable(ns, Realized(groups, tier))
    ensures Expand(ns, groups, tier) == Rows(ns, Realized(groups, tier), ns)
  {
    NothingGained(ns, ns);
    assert [] + Realized(groups, tier) == Realized(groups, tier);
    ExpandFrom(ns, [], groups, tier);
  }
}
