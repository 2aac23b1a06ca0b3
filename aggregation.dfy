/** Demand aggregation (`compute_GPU_node_demand`): GPU counts summed per
    product.  The source returns a Python dict, whose iteration order (the
    order products were first seen) decides the order in which the pass
    provisions them, so the result keeps that order beside the totals. */
module Aggregation {
  import opened Common
  import opened Pods

  /** A dict from product to total: its keys in insertion order, and the totals. */
  datatype Tally = Tally(order: seq<string>, totals: map<string, int>)

  predicate AllNameProduct(items: seq<DemandItem>) {
    forall i | 0 <= i < |items| :: items[i].product.Some?
  }

  lemma AllNameProductSnoc(items: seq<DemandItem>, x: DemandItem)
    requires AllNameProduct(items) && x.product.Some?
    ensures AllNameProduct(items + [x])
  {
  }

  /** The products the entries name. */
  function Products(items: seq<DemandItem>): set<string> {
    if |items| == 0 then {}
    else
      var last := items[|items| - 1];
      Products(items[..|items| - 1]) + (if last.product.Some? then {last.product.value} else {})
  }

  lemma {:induction false} ProductsMembership(items: seq<DemandItem>, q: string)
    ensures q in Products(items) <==> exists i | 0 <= i < |items| :: items[i].product == Some(q)
  {
    if |items| > 0 {
      var init := items[..|items| - 1];
      ProductsMembership(init, q);
      if q in Products(init) {
        var i :| 0 <= i < |init| && init[i].product == Some(q);
        assert items[i] == init[i];
      }
      if exists i | 0 <= i < |items| :: items[i].product == Some(q) {
        var i :| 0 <= i < |items| && items[i].product == Some(q);
        if i < |init| { assert init[i] == items[i]; }
      }
    }
  }

  /** Sum of the counts of the entries naming `product`. */
  function Total(items: seq<DemandItem>, product: string): int {
    if |items| == 0 then 0
    else Total(items[..|items| - 1], product) + (if items[|items| - 1].product == Some(product) then items[|items| - 1].count else 0)
  }

  /** The named products in order of first appearance, without repeats. */
  function FirstSeen(items: seq<DemandItem>): (r: seq<string>)
    ensures forall q :: q in r <==> q in Products(items)
    ensures forall i, j | 0 <= i < j < |r| :: r[i] != r[j]
  {
    if |items| == 0 then []
    else
      var earlier := FirstSeen(items[..|items| - 1]);
      var last := items[|items| - 1];
      if last.product.None? || last.product.value in earlier then earlier else earlier + [last.product.value]
  }

  /** Each named product mapped to its total. */
  function Totals(items: seq<DemandItem>): map<string, int> {
    map q | q in Products(items) :: Total(items, q)
  }

  /** What the aggregation computes: nothing for no demand (Python `None`, not an
      empty dict); `KeyError` when an entry names no product; otherwise one key
      per named product, totalling that product's counts. */
  function NodeDemand(items: seq<DemandItem>): Result<Option<Tally>> {
    if |items| == 0 then Ok(None)
    else if !AllNameProduct(items) then Err(KeyError("GPU_product"))
    else Ok(Some(Tally(FirstSeen(items), Totals(items))))
  }

  lemma {:induction false} TotalOfUnnamed(items: seq<DemandItem>, q: string)
    requires q !in Products(items)
    ensures Total(items, q) == 0
  {
    if |items| > 0 {
      var init := items[..|items| - 1];
      TotalOfUnnamed(init, q);
      assert items[|items| - 1].product != Some(q);
    }
  }

  /** The dict as the loop builds it, one update per named entry: a new
      product is appended to the order with its count, a known one has the
      count added to its total. */
  function Tallied(items: seq<DemandItem>): Tally {
    if |items| == 0 then Tally([], map[])
    else
      var t := Tallied(items[..|items| - 1]);
      var x := items[|items| - 1];
      if x.product.None? then t
      else
        var q := x.product.value;
        if q in t.totals then Tally(t.order, t.totals[q := t.totals[q] + x.count])
        else Tally(t.order + [q], t.totals[q := x.count])
  }

  /** One dict update: adding an entry to the tallied prefix. */
  lemma {:induction false} TallyStep(prefix: seq<DemandItem>, x: DemandItem)
    requires x.product.Some?
    ensures var q := x.product.value;
      var m := Totals(prefix);
      && (q in m <==> q in FirstSeen(prefix))
      && Totals(prefix + [x]) == (if q in m then m[q := m[q] + x.count] else m[q := x.count])
  {
    var q := x.product.value;
    var s := prefix + [x];
    assert s[..|prefix|] == prefix;
    var m := Totals(prefix);
    var m' := if q in m then m[q := m[q] + x.count] else m[q := x.count];
    assert Totals(s).Keys == m'.Keys;
    forall p | p in m' ensures Totals(s)[p] == m'[p] {
      assert Total(s, p) == Total(prefix, p) + (if Some(p) == x.product then x.count else 0);
      if p !in m {
        TotalOfUnnamed(prefix, p);
      }
    }
  }

  lemma UnnamedStep(prefix: seq<DemandItem>, x: DemandItem)
    requires x.product.None?
    ensures Totals(prefix + [x]) == Totals(prefix)
  {
    var s := prefix + [x];
    assert s[..|prefix|] == prefix;
    assert Products(s) == Products(prefix);
    forall p | p in Products(s) ensures Total(s, p) == Total(prefix, p) {
    }
  }

  /** Updating the dict entry by entry yields, for every product, the sum of
      its counts, with the products in order of first appearance. */
  lemma {:induction false} TalliedMeaning(items: seq<DemandItem>)
    ensures Tallied(items) == Tally(FirstSeen(items), Totals(items))
  {
    if |items| > 0 {
      var init := items[..|items| - 1];
      var x := items[|items| - 1];
      LastSplit(items);
      TalliedMeaning(init);
      if x.product.Some? {
        TallyStep(init, x);
      } else {
        UnnamedStep(init, x);
      }
    }
  }

  /** The loop of `compute_GPU_node_demand`: one dict update per entry. */
  method ComputeGpuNodeDemand(items: seq<DemandItem>) returns (r: Result<Option<Tally>>)
    ensures r == NodeDemand(items)
  {
    if |items| == 0 {
      return Ok(None);
    }
    var order: seq<string> := [];
    var totals: map<string, int> := map[];
    for i := 0 to |items|
      invariant AllNameProduct(items[..i])
      invariant Tally(order, totals) == Tallied(items[..i])
    {
      var item := items[i];
      PrefixSnoc(items, i);
      assert items[..i + 1][..i] == items[..i];
      if item.product.None? {
        assert !AllNameProduct(items) by {
          assert items[i].product.None?;
        }
        return Err(KeyError("GPU_product"));
      }
      AllNameProductSnoc(items[..i], item);
      var q := item.product.value;
      if q in totals {
        totals := totals[q := totals[q] + item.count];
      } else {
        totals := totals[q := item.count];
        order := order + [q];
      }
    }
    assert items[..|items|] == items;
    TalliedMeaning(items);
    return Ok(Some(Tally(order, totals)));
  }

  lemma {:induction false} TotalOfConcat(a: seq<DemandItem>, b: seq<DemandItem>, q: string)
    ensures Total(a + b, q) == Total(a, q) + Total(b, q)
  {
    if |b| > 0 {
      var b' := b[..|b| - 1];
      assert (a + b)[..|a + b| - 1] == a + b';
      TotalOfConcat(a, b', q);
    } else {
      assert a + b == a;
    }
  }

  /** Taking one entry out of a list takes its count out of the total. */
  lemma TotalRemove(b: seq<DemandItem>, k: nat, q: string)
    requires k < |b|
    ensures Total(b, q) == Total(b[..k] + b[k + 1..], q) + (if b[k].product == Some(q) then b[k].count else 0)
  {
    var x := b[k];
    assert b == b[..k] + [x] + b[k + 1..];
    TotalOfConcat(b[..k] + [x], b[k + 1..], q);
    TotalOfConcat(b[..k], [x], q);
    TotalOfConcat(b[..k], b[k + 1..], q);
    assert [x][..0] == [];
  }

  lemma MultisetRemove(b: seq<DemandItem>, k: nat)
    requires k < |b|
    ensures multiset(b[..k] + b[k + 1..]) == multiset(b) - multiset{b[k]}
  {
    assert b == b[..k] + [b[k]] + b[k + 1..];
  }

  /** The totals depend only on which entries there are, not on their order. */
  lemma {:induction false} TotalIgnoresOrder(a: seq<DemandItem>, b: seq<DemandItem>, q: string)
    requires multiset(a) == multiset(b)
    ensures Total(a, q) == Total(b, q)
  {
    if |a| > 0 {
      var x := a[|a| - 1];
      var a' := a[..|a| - 1];
      assert a == a' + [x];
      assert x in multiset(b);
      var k :| 0 <= k < |b| && b[k] == x;
      MultisetRemove(b, k);
      TotalIgnoresOrder(a', b[..k] + b[k + 1..], q);
      TotalRemove(b, k, q);
    } else {
      assert b == [];
    }
  }

  /** Aggregation is independent of the order of the demand entries: the same
      outcome kind, the same keys and the same totals for any permutation. */
  lemma AggregationIgnoresOrder(a: seq<DemandItem>, b: seq<DemandItem>)
    requires multiset(a) == multiset(b)
    ensures NodeDemand(a).Err? <==> NodeDemand(b).Err?
    ensures NodeDemand(a) == Ok(None) <==> NodeDemand(b) == Ok(None)
    ensures NodeDemand(a).Ok? && NodeDemand(a).value.Some? ==>
      NodeDemand(b).Ok? && NodeDemand(b).value.Some? &&
      NodeDemand(a).value.value.totals == NodeDemand(b).value.value.totals
  {
    assert |a| == |multiset(a)| == |b|;
    assert forall x :: x in a <==> x in b by {
      forall x ensures x in a <==> x in b {
        assert x in a <==> x in multiset(a);
        assert x in b <==> x in multiset(b);
      }
    }
    if AllNameProduct(a) {
      forall i | 0 <= i < |b| ensures b[i].product.Some? {
        assert b[i] in a;
      }
    }
    if AllNameProduct(b) {
      forall i | 0 <= i < |a| ensures a[i].product.Some? {
        assert a[i] in b;
      }
    }
    assert Products(a) == Products(b) by {
      forall q | q in Products(a) ensures q in Products(b) {
        ProductsMembership(a, q);
        ProductsMembership(b, q);
        var i :| 0 <= i < |a| && a[i].product == Some(q);
        assert a[i] in b;
      }
      forall q | q in Products(b) ensures q in Products(a) {
        ProductsMembership(a, q);
        ProductsMembership(b, q);
        var i :| 0 <= i < |b| && b[i].product == Some(q);
        assert b[i] in a;
      }
    }
    forall q | q in Products(a) ensures Total(a, q) == Total(b, q) {
      TotalIgnoresOrder(a, b, q);
    }
    assert Totals(a) == Totals(b);
  }

  /** Each key of a computed tally is a named product with its summed count,
      and the order lists every key exactly once. */
  lemma NodeDemandMeaning(items: seq<DemandItem>)
    requires NodeDemand(items).Ok? && NodeDemand(items).value.Some?
    ensures |items| > 0 && AllNameProduct(items)
    ensures var t := NodeDemand(items).value.value;
      && t.totals.Keys == Products(items)
      && (forall q | q in t.totals :: t.totals[q] == Total(items, q))
      && (forall q :: q in t.order <==> q in t.totals)
      && (forall i, j | 0 <= i < j < |t.order| :: t.order[i] != t.order[j])
  {
  }
}
