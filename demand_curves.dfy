/**
 * Stepwise demand and supply curves and their intersection.
 *
 * A curve is a sequence of steps `(x, price)`: `x` is the running total of
 * quantity up to and including that step, and the last step is the `np.inf`
 * sentinel. The index returned with a curve lists the row labels of the
 * orders in curve order.
 */
module DemandCurves {
  import opened Wrappers
  import opened ExtReal
  import opened Seqs
  import opened Orders

  datatype Step = Step(x: Ext, price: Ext)

  type Curve = seq<Step>

  /** The clearing point: quantity, price, buyer step, seller step. */
  datatype Equilibrium = Equilibrium(q: Ext, price: Ext, b: nat, s: nat)

  // ---------------------------------------------------------------------------
  // Sorting row labels by a key (pandas `sort_values`)
  // ---------------------------------------------------------------------------

  predicate InRange(idx: seq<nat>, n: nat) {
    forall k :: 0 <= k < |idx| ==> idx[k] < n
  }

  predicate SortedBy(keys: seq<real>, idx: seq<nat>)
    requires InRange(idx, |keys|)
  {
    forall i, j :: 0 <= i < j < |idx| ==> keys[idx[i]] <= keys[idx[j]]
  }

  /** Inserts `x` after every label whose key is not greater than its own. */
  function Insert(keys: seq<real>, x: nat, s: seq<nat>): (r: seq<nat>)
    requires x < |keys| && InRange(s, |keys|)
    ensures |r| == |s| + 1 && InRange(r, |keys|)
  {
    if s == [] then [x]
    else if keys[x] < keys[s[0]] then [x] + s
    else [s[0]] + Insert(keys, x, s[1..])
  }

  /** Inserting into a sorted run keeps it sorted and adds exactly `x`. */
  lemma {:induction false} InsertSpec(keys: seq<real>, x: nat, s: seq<nat>)
    requires x < |keys| && InRange(s, |keys|) && SortedBy(keys, s)
    ensures var r := Insert(keys, x, s);
      && (r[0] == x || (s != [] && r[0] == s[0]))
      && SortedBy(keys, r)
      && multiset(r) == multiset(s) + multiset{x}
  {
    if s != [] && keys[s[0]] <= keys[x] {
      var t := Insert(keys, x, s[1..]);
      assert s == [s[0]] + s[1..];
      InsertSpec(keys, x, s[1..]);
      InsertSorted(keys, s[0], t);
    }
  }

  /** A label whose key is at most that of the head of a sorted run may lead it. */
  lemma InsertSorted(keys: seq<real>, y: nat, t: seq<nat>)
    requires y < |keys| && InRange(t, |keys|) && SortedBy(keys, t)
    requires t != [] ==> keys[y] <= keys[t[0]]
    ensures InRange([y] + t, |keys|) && SortedBy(keys, [y] + t)
  {
    var r := [y] + t;
    forall i, j | 0 <= i < j < |r|
      ensures keys[r[i]] <= keys[r[j]]
    {
      if i == 0 && j > 1 {
        assert keys[t[0]] <= keys[t[j - 1]];
      }
    }
  }

  /**
   * A stable insertion sort of row labels by ascending key. pandas' default
   * sort does not promise an order among equal keys; this is one of the
   * orders it may produce.
   */
  function SortBy(keys: seq<real>, idx: seq<nat>): (r: seq<nat>)
    requires InRange(idx, |keys|)
    ensures InRange(r, |keys|) && |r| == |idx|
  {
    if idx == [] then []
    else
      var n := |idx| - 1;
      Insert(keys, idx[n], SortBy(keys, idx[..n]))
  }

  /** The sort yields a permutation of its input, ordered by ascending key. */
  lemma {:induction false} SortBySpec(keys: seq<real>, idx: seq<nat>)
    requires InRange(idx, |keys|)
    ensures SortedBy(keys, SortBy(keys, idx))
    ensures multiset(SortBy(keys, idx)) == multiset(idx)
  {
    if idx != [] {
      var n := |idx| - 1;
      assert idx == idx[..n] + [idx[n]];
      SortBySpec(keys, idx[..n]);
      InsertSpec(keys, idx[n], SortBy(keys, idx[..n]));
    }
  }

  function Rates(orders: seq<Order>): (keys: seq<real>)
    ensures |keys| == |orders|
  {
    seq(|orders|, i requires 0 <= i < |orders| => orders[i].energyRate)
  }

  function NegatedRates(orders: seq<Order>): (keys: seq<real>)
    ensures |keys| == |orders|
  {
    seq(|orders|, i requires 0 <= i < |orders| => -orders[i].energyRate)
  }

  // ---------------------------------------------------------------------------
  // Running sums of quantity
  // ---------------------------------------------------------------------------

  function Quantities(orders: seq<Order>, idx: seq<nat>): (q: seq<real>)
    requires InRange(idx, |orders|)
    ensures |q| == |idx|
  {
    seq(|idx|, k requires 0 <= k < |idx| => orders[idx[k]].energyQty)
  }

  /** Total quantity of the orders labelled by `idx`. */
  function QtySum(orders: seq<Order>, idx: seq<nat>): real
    requires InRange(idx, |orders|)
  {
    Sum(Quantities(orders, idx))
  }

  lemma QtySumAppend(orders: seq<Order>, idx: seq<nat>, x: nat)
    requires InRange(idx, |orders|) && x < |orders|
    ensures InRange(idx + [x], |orders|)
    ensures QtySum(orders, idx + [x]) == QtySum(orders, idx) + orders[x].energyQty
  {
    assert Quantities(orders, idx + [x]) == Quantities(orders, idx) + [orders[x].energyQty];
    SumAppend(Quantities(orders, idx), orders[x].energyQty);
  }

  /** The real rows of a curve: `(running quantity, price)` per order of `idx`. */
  function Steps(orders: seq<Order>, idx: seq<nat>): (r: Curve)
    requires InRange(idx, |orders|)
    ensures |r| == |idx|
  {
    if idx == [] then []
    else
      var n := |idx| - 1;
      Steps(orders, idx[..n]) + [Step(Fin(QtySum(orders, idx)), Fin(orders[idx[n]].energyRate))]
  }

  /** Step `k` holds the total quantity of the first `k + 1` orders and the price of order `k`. */
  lemma {:induction false} StepsAt(orders: seq<Order>, idx: seq<nat>)
    requires InRange(idx, |orders|)
    ensures var r := Steps(orders, idx);
      forall k :: 0 <= k < |idx| ==>
        r[k] == Step(Fin(QtySum(orders, idx[..k + 1])), Fin(orders[idx[k]].energyRate))
  {
    if idx != [] {
      var n := |idx| - 1;
      StepsAt(orders, idx[..n]);
      var r := Steps(orders, idx);
      forall k | 0 <= k < |idx|
        ensures r[k] == Step(Fin(QtySum(orders, idx[..k + 1])), Fin(orders[idx[k]].energyRate))
      {
        if k < n {
          assert idx[..n][..k + 1] == idx[..k + 1];
        } else {
          assert idx[..n + 1] == idx;
        }
      }
    }
  }

  // ---------------------------------------------------------------------------
  // Curve builders
  // ---------------------------------------------------------------------------

  /** `index` lists exactly the rows of one side, each once. */
  predicate IndexesSide(orders: seq<Order>, index: seq<nat>, buying: bool) {
    && multiset(index) == multiset(SideRows(orders, buying))
    && |index| == |SideRows(orders, buying)|
    && (forall k :: 0 <= k < |index| ==> index[k] < |orders| && orders[index[k]].buying == buying)
  }

  /** `curve` has one running-sum step per label of `index`, then `sentinel`. */
  predicate CurveOf(orders: seq<Order>, curve: Curve, index: seq<nat>, sentinel: Step) {
    && InRange(index, |orders|)
    && |curve| == |index| + 1
    && (forall k :: 0 <= k < |index| ==>
          curve[k] == Step(Fin(QtySum(orders, index[..k + 1])), Fin(orders[index[k]].energyRate)))
    && curve[|index|] == sentinel
  }

  /** The steps of an index closed by a sentinel form that index's curve. */
  lemma CurveFromSteps(orders: seq<Order>, index: seq<nat>, sentinel: Step)
    requires InRange(index, |orders|)
    ensures CurveOf(orders, Steps(orders, index) + [sentinel], index, sentinel)
  {
    var curve := Steps(orders, index) + [sentinel];
    StepsAt(orders, index);
    assert forall k :: 0 <= k < |index| ==> curve[k] == Steps(orders, index)[k];
  }

  lemma SortedSide(orders: seq<Order>, keys: seq<real>, buying: bool, index: seq<nat>)
    requires |keys| == |orders|
    requires index == SortBy(keys, SideRows(orders, buying))
    ensures IndexesSide(orders, index, buying)
  {
    var rows := SideRows(orders, buying);
    SortBySpec(keys, rows);
    forall k | 0 <= k < |index|
      ensures index[k] < |orders| && orders[index[k]].buying == buying
    {
      assert index[k] in multiset(rows);
    }
  }

  /**
   * `demand_curve_from_bids`: the bids sorted by descending price, with
   * running quantities, closed by the sentinel `(inf, 0)`.
   */
  function DemandCurveFromBids(orders: seq<Order>): (r: (Curve, seq<nat>))
    ensures InRange(r.1, |orders|) && |r.0| == |r.1| + 1
  {
    var index := SortBy(NegatedRates(orders), SideRows(orders, true));
    (Steps(orders, index) + [Step(Inf, Fin(0.0))], index)
  }

  /**
   * The demand curve's index lists each bid once, by non-increasing price,
   * and the curve has one running-sum step per bid, then `(inf, 0)`.
   */
  lemma DemandCurveSpec(orders: seq<Order>)
    ensures var r := DemandCurveFromBids(orders);
      && IndexesSide(orders, r.1, true)
      && (forall i, j :: 0 <= i < j < |r.1| ==>
            orders[r.1[j]].energyRate <= orders[r.1[i]].energyRate)
      && CurveOf(orders, r.0, r.1, Step(Inf, Fin(0.0)))
  {
    DemandSide(orders);
    DemandSorted(orders);
    CurveFromSteps(orders, DemandCurveFromBids(orders).1, Step(Inf, Fin(0.0)));
  }

  /** The demand index lists exactly the bids, each once. */
  lemma DemandSide(orders: seq<Order>)
    ensures IndexesSide(orders, DemandCurveFromBids(orders).1, true)
  {
    SortedSide(orders, NegatedRates(orders), true, DemandCurveFromBids(orders).1);
  }

  /**
   * `supply_curve_from_bids`: the offers sorted by ascending price, with
   * running quantities, closed by the sentinel `(inf, inf)`.
   */
  function SupplyCurveFromBids(orders: seq<Order>): (r: (Curve, seq<nat>))
    ensures InRange(r.1, |orders|) && |r.0| == |r.1| + 1
  {
    var index := SortBy(Rates(orders), SideRows(orders, false));
    (Steps(orders, index) + [Step(Inf, Inf)], index)
  }

  /**
   * The supply curve's index lists each offer once, by non-decreasing
   * price, and the curve has one running-sum step per offer, then
   * `(inf, inf)`.
   */
  lemma SupplyCurveSpec(orders: seq<Order>)
    ensures var r := SupplyCurveFromBids(orders);
      && IndexesSide(orders, r.1, false)
      && (forall i, j :: 0 <= i < j < |r.1| ==>
            orders[r.1[i]].energyRate <= orders[r.1[j]].energyRate)
      && CurveOf(orders, r.0, r.1, Step(Inf, Inf))
  {
    SupplySide(orders);
    SupplySorted(orders);
    CurveFromSteps(orders, SupplyCurveFromBids(orders).1, Step(Inf, Inf));
  }

  /** The supply index lists exactly the offers, each once. */
  lemma SupplySide(orders: seq<Order>)
    ensures IndexesSide(orders, SupplyCurveFromBids(orders).1, false)
  {
    SortedSide(orders, Rates(orders), false, SupplyCurveFromBids(orders).1);
  }

  /** Step `k` of the real rows carries the price of order `idx[k]`. */
  lemma {:induction false} StepsPrice(orders: seq<Order>, idx: seq<nat>)
    requires InRange(idx, |orders|)
    ensures var r := Steps(orders, idx);
      forall k :: 0 <= k < |idx| ==> r[k].price == Fin(orders[idx[k]].energyRate)
  {
    if idx != [] {
      StepsPrice(orders, idx[..|idx| - 1]);
    }
  }

  /** Each demand step is priced at its bid's rate; the sentinel is `(inf, 0)`. */
  lemma DemandPrices(orders: seq<Order>)
    ensures var r := DemandCurveFromBids(orders);
      && (forall k :: 0 <= k < |r.1| ==> r.0[k].price == Fin(orders[r.1[k]].energyRate))
      && r.0[|r.1|] == Step(Inf, Fin(0.0))
  {
    StepsPrice(orders, DemandCurveFromBids(orders).1);
  }

  /** Each supply step is priced at its offer's rate; the sentinel is `(inf, inf)`. */
  lemma SupplyPrices(orders: seq<Order>)
    ensures var r := SupplyCurveFromBids(orders);
      && (forall k :: 0 <= k < |r.1| ==> r.0[k].price == Fin(orders[r.1[k]].energyRate))
      && r.0[|r.1|] == Step(Inf, Inf)
  {
    StepsPrice(orders, SupplyCurveFromBids(orders).1);
  }

  /** The demand index runs by non-increasing rate. */
  lemma DemandSorted(orders: seq<Order>)
    ensures var idx := DemandCurveFromBids(orders).1;
      forall i, j :: 0 <= i < j < |idx| ==> orders[idx[j]].energyRate <= orders[idx[i]].energyRate
  {
    SortBySpec(NegatedRates(orders), SideRows(orders, true));
  }

  /** The supply index runs by non-decreasing rate. */
  lemma SupplySorted(orders: seq<Order>)
    ensures var idx := SupplyCurveFromBids(orders).1;
      forall i, j :: 0 <= i < j < |idx| ==> orders[idx[i]].energyRate <= orders[idx[j]].energyRate
  {
    SortBySpec(Rates(orders), SideRows(orders, false));
  }

  /** The running totals of a curve grow strictly when every quantity is positive. */
  lemma {:induction false} QtySumPrefixIncreasing(orders: seq<Order>, index: seq<nat>, i: nat, j: nat)
    requires InRange(index, |orders|) && i < j <= |index|
    requires forall k :: 0 <= k < |index| ==> orders[index[k]].energyQty > 0.0
    ensures QtySum(orders, index[..i]) < QtySum(orders, index[..j])
  {
    var head, tail := Quantities(orders, index[..i]), Quantities(orders, index[i..j]);
    assert Quantities(orders, index[..j]) == head + tail;
    SumConcat(head, tail);
    SumNonNegative(tail);
    assert tail[0] > 0.0;
  }

  /**
   * With positive quantities the x-coordinates of a curve are strictly
   * increasing, the sentinel included.
   */
  lemma CurveStepsIncrease(orders: seq<Order>, curve: Curve, index: seq<nat>, sentinel: Step)
    requires CurveOf(orders, curve, index, sentinel) && sentinel.x == Inf
    requires forall k :: 0 <= k < |index| ==> orders[index[k]].energyQty > 0.0
    ensures forall i, j :: 0 <= i < j < |curve| ==> Lt(curve[i].x, curve[j].x)
  {
    forall i, j | 0 <= i < j < |curve|
      ensures Lt(curve[i].x, curve[j].x)
    {
      if j < |index| {
        QtySumPrefixIncreasing(orders, index, i + 1, j + 1);
      }
    }
  }

  /**
   * The batch of the example in demand_curves.py: offers 1@3, 0.2@1 and
   * 1.7@6 at rows 0, 2 and 3, a bid at row 1.
   */
  predicate ExampleBatch(orders: seq<Order>) {
    && |orders| == 4 && orders[1].buying
    && !orders[0].buying && !orders[2].buying && !orders[3].buying
    && orders[0].energyQty == 1.0 && orders[2].energyQty == 0.2 && orders[3].energyQty == 1.7
    && orders[0].energyRate == 3.0 && orders[2].energyRate == 1.0 && orders[3].energyRate == 6.0
  }

  lemma ExampleOffers(orders: seq<Order>)
    requires ExampleBatch(orders)
    ensures SideRows(orders, false) == [0, 2, 3]
  {
    assert SideRowsUpTo(orders, false, 0) == [];
    assert SideRowsUpTo(orders, false, 1) == [0];
    assert SideRowsUpTo(orders, false, 2) == [0];
    assert SideRowsUpTo(orders, false, 3) == [0, 2];
  }

  lemma ExampleOfferOrder(keys: seq<real>)
    requires |keys| == 4 && keys[0] == 3.0 && keys[2] == 1.0 && keys[3] == 6.0
    ensures SortBy(keys, [0, 2, 3]) == [2, 0, 3]
  {
    var s1 := SortBy(keys, [0]);
    assert s1 == [0] by {
      assert [0][..0] == [];
    }
    var s2 := SortBy(keys, [0, 2]);
    assert s2 == Insert(keys, 2, s1) by {
      assert [0, 2][..1] == [0];
    }
    assert s2 == [2, 0];
    assert SortBy(keys, [0, 2, 3]) == Insert(keys, 3, s2) by {
      assert [0, 2, 3][..2] == [0, 2];
    }
    var i1 := Insert(keys, 3, [0]);
    assert i1 == [0] + Insert(keys, 3, []) by {
      assert [0][1..] == [];
    }
    assert Insert(keys, 3, [2, 0]) == [2] + i1 by {
      assert [2, 0][1..] == [0];
    }
  }

  lemma ExampleOfferSteps(orders: seq<Order>)
    requires ExampleBatch(orders)
    ensures Steps(orders, [2, 0, 3]) ==
      [Step(Fin(0.2), Fin(1.0)), Step(Fin(1.2), Fin(3.0)), Step(Fin(2.9), Fin(6.0))]
  {
    var i1, i2, i3 := [2], [2, 0], [2, 0, 3];
    assert QtySum(orders, i1) == 0.2 by {
      assert QtySum(orders, []) == 0.0;
      QtySumAppend(orders, [], 2);
      assert [] + [2] == i1;
    }
    assert QtySum(orders, i2) == 1.2 by {
      QtySumAppend(orders, i1, 0);
      assert i1 + [0] == i2;
    }
    assert QtySum(orders, i3) == 2.9 by {
      QtySumAppend(orders, i2, 3);
      assert i2 + [3] == i3;
    }
    assert Steps(orders, i1) == [Step(Fin(0.2), Fin(1.0))] by {
      assert i1[..0] == [];
    }
    assert Steps(orders, i2) == Steps(orders, i1) + [Step(Fin(1.2), Fin(3.0))] by {
      assert i2[..1] == i1;
    }
    assert Steps(orders, i3) == Steps(orders, i2) + [Step(Fin(2.9), Fin(6.0))] by {
      assert i3[..2] == i2;
    }
  }

  /** The index of the supply curve given as the example in demand_curves.py. */
  lemma SupplyIndexExample(orders: seq<Order>)
    requires ExampleBatch(orders)
    ensures SupplyCurveFromBids(orders).1 == [2, 0, 3]
  {
    ExampleOffers(orders);
    ExampleOfferOrder(Rates(orders));
  }

  /** The supply curve given as the example in demand_curves.py. */
  lemma SupplyCurveExample(orders: seq<Order>)
    requires ExampleBatch(orders)
    ensures SupplyCurveFromBids(orders).0 ==
      [Step(Fin(0.2), Fin(1.0)), Step(Fin(1.2), Fin(3.0)), Step(Fin(2.9), Fin(6.0)), Step(Inf, Inf)]
  {
    SupplyIndexExample(orders);
    SupplyCurveUnfold(orders, [2, 0, 3]);
    ExampleOfferSteps(orders);
  }

  lemma SupplyCurveUnfold(orders: seq<Order>, index: seq<nat>)
    requires index == SortBy(Rates(orders), SideRows(orders, false))
    ensures SupplyCurveFromBids(orders) == (Steps(orders, index) + [Step(Inf, Inf)], index)
  {
  }

  // ---------------------------------------------------------------------------
  // Evaluating a stepwise function
  // ---------------------------------------------------------------------------

  /** Position of the first step whose x-coordinate is at least `x`, or `|f|` if none is. */
  function FirstCovering(x: Ext, f: Curve): (k: nat)
    ensures k <= |f|
    ensures forall j :: 0 <= j < k ==> !Le(x, f[j].x)
    ensures k < |f| ==> Le(x, f[k].x)
  {
    if f == [] then 0
    else if Le(x, f[0].x) then 0
    else 1 + FirstCovering(x, f[1..])
  }

  /**
   * `get_value_stepwise`: None for a negative `x`, otherwise the price of
   * the first step whose x-coordinate is at least `x`, and None past the end.
   */
  function GetValueStepwise(x: real, f: Curve): (r: Option<Ext>)
    ensures x < 0.0 ==> r == None
    ensures x >= 0.0 ==> (r.Some? <==> exists i :: 0 <= i < |f| && Le(Fin(x), f[i].x))
    ensures r.Some? ==> exists i :: (0 <= i < |f| && Le(Fin(x), f[i].x) &&
      r.value == f[i].price && forall j :: 0 <= j < i ==> !Le(Fin(x), f[j].x))
  {
    if x < 0.0 then None
    else
      var k := FirstCovering(Fin(x), f);
      if k < |f| then Some(f[k].price) else None
  }

  /** On a curve closed by a sentinel every non-negative `x` has a value. */
  lemma GetValueOnCurve(x: real, orders: seq<Order>, curve: Curve, index: seq<nat>, sentinel: Step)
    requires CurveOf(orders, curve, index, sentinel) && sentinel.x == Inf && x >= 0.0
    ensures GetValueStepwise(x, curve).Some?
  {
    assert Le(Fin(x), curve[|index|].x);
  }

  /** The example of demand_curves.py: `[-1, 0, 0.5, 1, 2, 3, 4]` maps to `[None, 1, 1, 1, 4, 4, None]`. */
  lemma GetValueStepwiseExample()
    ensures var f := [Step(Fin(1.0), Fin(1.0)), Step(Fin(3.0), Fin(4.0))];
      && GetValueStepwise(-1.0, f) == None
      && GetValueStepwise(0.0, f) == Some(Fin(1.0))
      && GetValueStepwise(0.5, f) == Some(Fin(1.0))
      && GetValueStepwise(1.0, f) == Some(Fin(1.0))
      && GetValueStepwise(2.0, f) == Some(Fin(4.0))
      && GetValueStepwise(3.0, f) == Some(Fin(4.0))
      && GetValueStepwise(4.0, f) == None
  {
    var f := [Step(Fin(1.0), Fin(1.0)), Step(Fin(3.0), Fin(4.0))];
    assert f[1..] == [Step(Fin(3.0), Fin(4.0))] && f[1..][1..] == [];
  }

  // ---------------------------------------------------------------------------
  // Intersecting demand and supply
  // ---------------------------------------------------------------------------

  /** Column 0 of a curve. */
  function Xs(c: Curve): (xs: seq<Ext>)
    ensures |xs| == |c| && forall k :: 0 <= k < |c| ==> xs[k] == c[k].x
  {
    seq(|c|, k requires 0 <= k < |c| => c[k].x)
  }

  /** `sum` over extended reals, left to right. */
  function ExtSum(xs: seq<Ext>): Ext {
    if xs == [] then Fin(0.0) else Add(ExtSum(xs[..|xs| - 1]), xs[|xs| - 1])
  }

  /** `np.cumsum`: entry `k` is the sum of the first `k + 1` entries. */
  function CumSum(xs: seq<Ext>): (r: seq<Ext>)
    ensures |r| == |xs|
    ensures forall k :: 0 <= k < |xs| ==> r[k] == ExtSum(xs[..k + 1])
  {
    if xs == [] then []
    else
      var n := |xs| - 1;
      var r := CumSum(xs[..n]);
      forall k | 0 <= k < n
        ensures r[k] == ExtSum(xs[..k + 1])
      {
        assert xs[..n][..k + 1] == xs[..k + 1];
      }
      assert xs[..n + 1] == xs;
      r + [ExtSum(xs)]
  }

  /**
   * Buyer step `b` and seller step `s` cross: the buyers' re-accumulated
   * quantity covers the sellers' and the bid price covers the ask.
   */
  predicate Crossing(bc: seq<Ext>, sc: seq<Ext>, Buy: Curve, Sell: Curve, b: nat, s: nat)
    requires |bc| == |Buy| && |sc| == |Sell| && b < |Buy| && s < |Sell|
  {
    Le(sc[s], bc[b]) && Le(Sell[s].price, Buy[b].price)
  }

  /** The point reported for a crossing at `(e.b, e.s)`: the sellers' quantity and the mid price. */
  predicate Reports(sc: seq<Ext>, Buy: Curve, Sell: Curve, e: Equilibrium)
    requires |sc| == |Sell|
  {
    e.b < |Buy| && e.s < |Sell| && e.q == sc[e.s] && e.price == Mid(Buy[e.b].price, Sell[e.s].price)
  }

  /** The inner loop over sellers for one buyer step, from seller step `s` on. */
  function ScanSellers(bc: seq<Ext>, sc: seq<Ext>, Buy: Curve, Sell: Curve, b: nat, s: nat)
    : (r: Option<Equilibrium>)
    requires |bc| == |Buy| && |sc| == |Sell| && b < |Buy| && s <= |Sell|
    decreases |Sell| - s
    ensures r.Some? ==> r.value.b == b && s <= r.value.s < |Sell|
  {
    if s == |Sell| then None
    else if Crossing(bc, sc, Buy, Sell, b, s) then
      Some(Equilibrium(sc[s], Mid(Buy[b].price, Sell[s].price), b, s))
    else ScanSellers(bc, sc, Buy, Sell, b, s + 1)
  }

  /**
   * The inner loop finds nothing exactly when no seller step from `s` on
   * crosses buyer step `b`; otherwise it reports the first that does.
   */
  lemma {:induction false} ScanSellersSpec(bc: seq<Ext>, sc: seq<Ext>, Buy: Curve, Sell: Curve, b: nat, s: nat)
    requires |bc| == |Buy| && |sc| == |Sell| && b < |Buy| && s <= |Sell|
    decreases |Sell| - s
    ensures var r := ScanSellers(bc, sc, Buy, Sell, b, s);
      && (r.None? <==> forall t :: s <= t < |Sell| ==> !Crossing(bc, sc, Buy, Sell, b, t))
      && (r.Some? ==> Reports(sc, Buy, Sell, r.value) && Crossing(bc, sc, Buy, Sell, b, r.value.s))
      && (r.Some? ==> forall t :: s <= t < r.value.s ==> !Crossing(bc, sc, Buy, Sell, b, t))
  {
    if s < |Sell| && !Crossing(bc, sc, Buy, Sell, b, s) {
      ScanSellersSpec(bc, sc, Buy, Sell, b, s + 1);
    }
  }

  /** `(a, t)` comes before `(b, s)` in buyer-major order. */
  predicate Before(a: nat, t: nat, b: nat, s: nat) {
    a < b || (a == b && t < s)
  }

  /** The outer loop over buyer steps, from buyer step `b` on; the first crossing wins. */
  function ScanBuyers(bc: seq<Ext>, sc: seq<Ext>, Buy: Curve, Sell: Curve, b: nat)
    : (r: Option<Equilibrium>)
    requires |bc| == |Buy| && |sc| == |Sell| && b <= |Buy|
    decreases |Buy| - b
    ensures r.Some? ==> b <= r.value.b < |Buy| && r.value.s < |Sell|
  {
    if b == |Buy| then None
    else
      match ScanSellers(bc, sc, Buy, Sell, b, 0)
      case Some(e) => Some(e)
      case None => ScanBuyers(bc, sc, Buy, Sell, b + 1)
  }

  /** No pair of steps from buyer step `b` on crosses. */
  predicate NoneFrom(bc: seq<Ext>, sc: seq<Ext>, Buy: Curve, Sell: Curve, b: nat)
    requires |bc| == |Buy| && |sc| == |Sell|
  {
    forall a, t :: b <= a < |Buy| && 0 <= t < |Sell| ==> !Crossing(bc, sc, Buy, Sell, a, t)
  }

  /** `e` is the first crossing from buyer step `b` on, in buyer-major order. */
  predicate FirstFrom(bc: seq<Ext>, sc: seq<Ext>, Buy: Curve, Sell: Curve, b: nat, e: Equilibrium)
    requires |bc| == |Buy| && |sc| == |Sell|
  {
    && Reports(sc, Buy, Sell, e) && b <= e.b
    && Crossing(bc, sc, Buy, Sell, e.b, e.s)
    && forall a, t :: b <= a < |Buy| && 0 <= t < |Sell| && Before(a, t, e.b, e.s) ==>
         !Crossing(bc, sc, Buy, Sell, a, t)
  }

  /**
   * The outer loop finds nothing exactly when no pair from buyer step `b`
   * on crosses; otherwise it reports the first crossing in buyer-major
   * order.
   */
  lemma {:induction false} ScanBuyersSpec(bc: seq<Ext>, sc: seq<Ext>, Buy: Curve, Sell: Curve, b: nat)
    requires |bc| == |Buy| && |sc| == |Sell| && b <= |Buy|
    decreases |Buy| - b
    ensures var r := ScanBuyers(bc, sc, Buy, Sell, b);
      && (r.None? <==> NoneFrom(bc, sc, Buy, Sell, b))
      && (r.Some? ==> FirstFrom(bc, sc, Buy, Sell, b, r.value))
  {
    if b < |Buy| {
      ScanSellersSpec(bc, sc, Buy, Sell, b, 0);
      ScanBuyersSpec(bc, sc, Buy, Sell, b + 1);
    }
  }

  /** Both curves hold at most one real step and the bid price beats the ask strictly. */
  predicate SmallCase(Buy: Curve, Sell: Curve)
    requires |Buy| >= 1 && |Sell| >= 1
  {
    |Buy| <= 2 && |Sell| <= 2 && Lt(Sell[0].price, Buy[0].price)
  }

  /** No pair of steps crosses once column 0 is re-accumulated. */
  predicate NoCrossing(Buy: Curve, Sell: Curve) {
    NoneFrom(CumSum(Xs(Buy)), CumSum(Xs(Sell)), Buy, Sell, 0)
  }

  /** `e` reports the first crossing in buyer-major order of the re-accumulated curves. */
  predicate FirstCrossing(Buy: Curve, Sell: Curve, e: Equilibrium) {
    FirstFrom(CumSum(Xs(Buy)), CumSum(Xs(Sell)), Buy, Sell, 0, e)
  }

  /**
   * `intersect_stepwise`. The small case returns early only when the bid
   * beats the ask; otherwise (and in every other case) column 0, which is
   * already cumulative, is accumulated once more and the first buyer-major
   * crossing is reported.
   */
  function IntersectStepwise(Buy: Curve, Sell: Curve): (r: Option<Equilibrium>)
    requires |Buy| >= 1 && |Sell| >= 1
    ensures r.Some? ==> r.value.b < |Buy| && r.value.s < |Sell|
  {
    if SmallCase(Buy, Sell) then
      Some(Equilibrium(Min(Buy[0].x, Sell[0].x), Mid(Buy[0].price, Sell[0].price), 0, 0))
    else
      ScanBuyers(CumSum(Xs(Buy)), CumSum(Xs(Sell)), Buy, Sell, 0)
  }

  /**
   * Two single-step curves whose bid beats the ask meet at the smaller
   * quantity and the mid price, at steps 0 and 0.
   */
  lemma IntersectSmallCase(Buy: Curve, Sell: Curve)
    requires |Buy| >= 1 && |Sell| >= 1 && SmallCase(Buy, Sell)
    ensures IntersectStepwise(Buy, Sell) ==
      Some(Equilibrium(Min(Buy[0].x, Sell[0].x), Mid(Buy[0].price, Sell[0].price), 0, 0))
  {
  }

  /**
   * Outside the small case (including small curves whose bid does not beat
   * the ask) there is no result exactly when no pair crosses, and a result
   * is the first crossing.
   */
  lemma IntersectGeneralCase(Buy: Curve, Sell: Curve)
    requires |Buy| >= 1 && |Sell| >= 1 && !SmallCase(Buy, Sell)
    ensures var r := IntersectStepwise(Buy, Sell);
      && (r.None? <==> NoCrossing(Buy, Sell))
      && (r.Some? ==> FirstCrossing(Buy, Sell, r.value))
  {
    ScanBuyersSpec(CumSum(Xs(Buy)), CumSum(Xs(Sell)), Buy, Sell, 0);
  }

  /** A reported price lies between the two matched prices. */
  lemma IntersectPriceBetween(Buy: Curve, Sell: Curve)
    requires |Buy| >= 1 && |Sell| >= 1
    ensures var r := IntersectStepwise(Buy, Sell);
      r.Some? ==> Le(Sell[r.value.s].price, r.value.price) && Le(r.value.price, Buy[r.value.b].price)
  {
    if !SmallCase(Buy, Sell) {
      IntersectGeneralCase(Buy, Sell);
    }
  }

  /**
   * Column 0 is re-accumulated although it is already a running total:
   * bids 1@10 and 1@9 against an offer 3@1 clear 3 units at price 5 on the
   * second bid step, while only 2 units are demanded in all.
   */
  lemma DoubleAccumulationExample()
    ensures var Buy := [Step(Fin(1.0), Fin(10.0)), Step(Fin(2.0), Fin(9.0)), Step(Inf, Fin(0.0))];
      var Sell := [Step(Fin(3.0), Fin(1.0)), Step(Inf, Inf)];
      IntersectStepwise(Buy, Sell) == Some(Equilibrium(Fin(3.0), Fin(5.0), 1, 0))
  {
    var Buy := [Step(Fin(1.0), Fin(10.0)), Step(Fin(2.0), Fin(9.0)), Step(Inf, Fin(0.0))];
    var Sell := [Step(Fin(3.0), Fin(1.0)), Step(Inf, Inf)];
    var bc, sc := CumSum(Xs(Buy)), CumSum(Xs(Sell));
    assert Xs(Buy) == [Fin(1.0), Fin(2.0), Inf];
    assert Xs(Sell) == [Fin(3.0), Inf];
    assert ExtSum([Fin(1.0)]) == Fin(1.0) by {
      assert [Fin(1.0)][..0] == [];
    }
    assert ExtSum([Fin(1.0), Fin(2.0)]) == Fin(3.0) by {
      assert [Fin(1.0), Fin(2.0)][..1] == [Fin(1.0)];
    }
    assert ExtSum([Fin(3.0)]) == Fin(3.0) by {
      assert [Fin(3.0)][..0] == [];
    }
    assert ExtSum([Fin(3.0), Inf]) == Inf;
    assert bc[0] == Fin(1.0) by {
      assert [Fin(1.0), Fin(2.0), Inf][..1] == [Fin(1.0)];
    }
    assert bc[1] == Fin(3.0) by {
      assert [Fin(1.0), Fin(2.0), Inf][..2] == [Fin(1.0), Fin(2.0)];
    }
    assert sc[0] == Fin(3.0) by {
      assert [Fin(3.0), Inf][..1] == [Fin(3.0)];
    }
    assert sc[1] == Inf by {
      assert [Fin(3.0), Inf][..2] == [Fin(3.0), Inf];
    }
    assert ScanSellers(bc, sc, Buy, Sell, 0, 0) == None;
    assert ScanSellers(bc, sc, Buy, Sell, 1, 0) == Some(Equilibrium(Fin(3.0), Fin(5.0), 1, 0));
  }
}
