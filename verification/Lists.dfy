/** Lists put together from the parts of the elements of another list. */
module Lists {

  function Concat<R, X>(items: seq<R>, part: R -> seq<X>): seq<X> {
    if items == [] then [] else part(items[0]) + Concat(items[1..], part)
  }

  lemma {:induction false} ConcatJoin<R, X>(a: seq<R>, b: seq<R>, part: R -> seq<X>)
    ensures Concat(a + b, part) == Concat(a, part) + Concat(b, part)
  {
    if a == [] {
      assert [] + b == b;
    } else {
      assert (a + b)[0] == a[0] && (a + b)[1..] == a[1..] + b;
      ConcatJoin(a[1..], b, part);
    }
  }

  lemma ConcatAppend<R, X>(a: seq<R>, r: R, part: R -> seq<X>)
    ensures Concat(a + [r], part) == Concat(a, part) + part(r)
  {
    ConcatJoin(a, [r], part);
    assert [r][1..] == [];
    assert Concat([r], part) == part(r) + [];
  }

  lemma {:induction false} InConcat<R, X>(items: seq<R>, part: R -> seq<X>, x: X)
    ensures x in Concat(items, part) <==> exists k :: 0 <= k < |items| && x in part(items[k])
  {
    if items != [] {
      InConcat(items[1..], part, x);
      if x in Concat(items[1..], part) {
        var k :| 0 <= k < |items[1..]| && x in part(items[1..][k]);
        assert items[k + 1] == items[1..][k];
      }
      if k :| 0 <= k < |items| && x in part(items[k]) {
        assert k > 0 ==> items[1..][k - 1] == items[k];
      }
    }
  }

  lemma {:induction false} ConcatNothing<R, X>(items: seq<R>, part: R -> seq<X>)
    requires forall k :: 0 <= k < |items| ==> part(items[k]) == []
    ensures Concat(items, part) == []
  {
    if items != [] { ConcatNothing(items[1..], part); }
  }

  function Without<R>(items: seq<R>, k: nat): seq<R>
    requires k < |items|
  {
    items[..k] + items[k + 1..]
  }

  lemma ConcatWithout<R, X>(items: seq<R>, part: R -> seq<X>, k: nat)
    requires k < |items|
    ensures multiset(Concat(items, part)) == multiset(part(items[k])) + multiset(Concat(Without(items, k), part))
  {
    var before, after := items[..k], items[k + 1..];
    assert items == before + ([items[k]] + after);
    ConcatJoin(before, [items[k]] + after, part);
    assert ([items[k]] + after)[1..] == after;
    assert Concat([items[k]] + after, part) == part(items[k]) + Concat(after, part);
    ConcatJoin(before, after, part);
  }

  lemma DropBoth<R>(a: seq<R>, b: seq<R>, k: nat)
    requires multiset(a) == multiset(b) && a != [] && k < |b| && b[k] == a[0]
    ensures multiset(a[1..]) == multiset(Without(b, k))
  {
    assert a == [a[0]] + a[1..] && b == b[..k] + ([b[k]] + b[k + 1..]);
    assert multiset(b) == multiset(b[..k]) + (multiset{a[0]} + multiset(b[k + 1..]));
    assert multiset(a) == multiset{a[0]} + multiset(a[1..]);
    assert multiset(a[1..]) == multiset(a) - multiset{a[0]};
    assert multiset(Without(b, k)) == multiset(b) - multiset{a[0]};
  }

  /** The same elements in another order give the same parts in another order. */
  lemma {:induction false} ConcatPermute<R, X>(a: seq<R>, b: seq<R>, part: R -> seq<X>)
    requires multiset(a) == multiset(b)
    ensures multiset(Concat(a, part)) == multiset(Concat(b, part))
    decreases |a|
  {
    if a == [] {
      assert |multiset(b)| == 0;
    } else {
      assert a[0] in multiset(b);
      var k :| 0 <= k < |b| && b[k] == a[0];
      DropBoth(a, b, k);
      ConcatPermute(a[1..], Without(b, k), part);
      ConcatWithout(b, part, k);
    }
  }
}
