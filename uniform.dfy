/**
 * Uniform-price clearing (`uniform_price_mechanism`). The demand and supply
 * curves are intersected; the bids and offers up to the crossing steps form
 * the trading population, all legs carry the one clearing price, the short
 * side trades in full and the long side is filled greedily in curve order.
 */
module Uniform {
  import opened Wrappers
  import opened ExtReal
  import opened Seqs
  import opened Orders
  import opened Transactions
  import opened DemandCurves

  // ---------------------------------------------------------------------------
  // One leg per order (`create_transaction`)
  // ---------------------------------------------------------------------------

  /** The leg's columns for its own side hold the order's values. */
  predicate OwnSideFrom(leg: Leg, row: Order) {
    if row.buying then
      && leg.buyer == row.user && leg.buyerId == row.userId && leg.bidId == row.orderId
      && leg.bidQty == Some(row.energyQty) && leg.bidRate == Some(row.energyRate)
      && leg.bidTime == row.bidOfferTime
    else
      && leg.seller == row.user && leg.sellerId == row.userId && leg.offerId == row.orderId
      && leg.offerQty == Some(row.energyQty) && leg.offerRate == Some(row.energyRate)
      && leg.offerTime == row.bidOfferTime
  }

  /** The columns of the other side are blank. */
  predicate OtherSideBlank(leg: Leg, buying: bool) {
    if buying then
      && leg.seller == "" && leg.sellerId == "" && leg.offerId == ""
      && leg.offerQty == None && leg.offerRate == None && leg.offerTime == ""
    else
      && leg.buyer == "" && leg.buyerId == "" && leg.bidId == ""
      && leg.bidQty == None && leg.bidRate == None && leg.bidTime == ""
  }

  /**
   * `create_transaction`: one leg with a fresh id, the clearing price and
   * the matched quantity, tagged Buying for a bid and Selling for an offer.
   */
  function CreateTransaction(id: nat, row: Order, price: real, qty: real): (leg: Leg)
    ensures leg.transId == id && leg.clearingRate == price && leg.matchedQty == qty
    ensures leg.transType == (if row.buying then Buying else Selling)
  {
    if row.buying then
      Leg(id, row.user, row.userId, row.unitArea, row.orderId, Some(row.energyQty),
        Some(row.energyRate), row.bidOfferTime, "", "", "", None, None, "", price, qty,
        row.deliveryTime, Buying)
    else
      Leg(id, "", "", row.unitArea, "", None, None, "", row.user, row.userId, row.orderId,
        Some(row.energyQty), Some(row.energyRate), row.bidOfferTime, price, qty,
        row.deliveryTime, Selling)
  }

  /**
   * A buyer's leg fills the buyer columns from the order and blanks the
   * seller columns, and the reverse for a seller; unit area and delivery
   * time come from the order either way.
   */
  lemma CreateTransactionColumns(id: nat, row: Order, price: real, qty: real)
    ensures var leg := CreateTransaction(id, row, price, qty);
      && OwnSideFrom(leg, row) && OtherSideBlank(leg, row.buying)
      && leg.unitArea == row.unitArea && leg.deliveryTime == row.deliveryTime
  {
  }

  /** The legs for the rows `rows[..|qs|]` with quantities `qs`, ids counted up from `id`. */
  function OrderLegs(orders: seq<Order>, rows: seq<nat>, qs: seq<real>, price: real, id: nat)
    : (legs: seq<Leg>)
    requires InRange(rows, |orders|) && |qs| <= |rows|
    ensures |legs| == |qs|
    decreases |qs|
  {
    if qs == [] then []
    else
      var n := |qs| - 1;
      OrderLegs(orders, rows, qs[..n], price, id) + [CreateTransaction(id + n, orders[rows[n]], price, qs[n])]
  }

  lemma {:induction false} OrderLegsAt(orders: seq<Order>, rows: seq<nat>, qs: seq<real>, price: real, id: nat)
    requires InRange(rows, |orders|) && |qs| <= |rows|
    ensures var legs := OrderLegs(orders, rows, qs, price, id);
      forall k :: 0 <= k < |qs| ==> legs[k] == CreateTransaction(id + k, orders[rows[k]], price, qs[k])
    decreases |qs|
  {
    if qs != [] {
      var n := |qs| - 1;
      OrderLegsAt(orders, rows, qs[..n], price, id);
    }
  }

  /** The matched quantities of a run of legs. */
  function Matched(legs: seq<Leg>): (qs: seq<real>)
    ensures |qs| == |legs|
  {
    if legs == [] then [] else Matched(legs[..|legs| - 1]) + [legs[|legs| - 1].matchedQty]
  }

  // ---------------------------------------------------------------------------
  // The clearing point and the trading population
  // ---------------------------------------------------------------------------

  /** `iloc[:n]`: the first `n` labels, or all of them. */
  function Take(idx: seq<nat>, n: nat): (r: seq<nat>)
    ensures r <= idx && (|r| == n || r == idx)
  {
    if n <= |idx| then idx[..n] else idx
  }

  /**
   * The outcome of the curve intersection: the reported quantity and price,
   * the trading bids and offers as row labels in curve order, the traded
   * quantity and whether the bids are the short side.
   */
  datatype Cleared = Cleared(
    q: Ext, price: real, bids: seq<nat>, offers: seq<nat>, traded: real, bidsShort: bool)

  /** The row labels of the short side. */
  function Short(c: Cleared): seq<nat> {
    if c.bidsShort then c.bids else c.offers
  }

  /** The row labels of the long side. */
  function Long(c: Cleared): seq<nat> {
    if c.bidsShort then c.offers else c.bids
  }

  function Crossed(orders: seq<Order>): Option<Equilibrium> {
    IntersectStepwise(DemandCurveFromBids(orders).0, SupplyCurveFromBids(orders).0)
  }

  /**
   * A crossing of curves built from an order batch is at real steps or
   * sentinels of both curves, and its price is finite: every demand price
   * is, and the price is at most the matched demand price.
   */
  lemma CrossingFinite(orders: seq<Order>)
    requires Crossed(orders).Some?
    ensures Crossed(orders).value.price.Fin?
    ensures Crossed(orders).value.b <= |DemandCurveFromBids(orders).1|
    ensures Crossed(orders).value.s <= |SupplyCurveFromBids(orders).1|
  {
    var buy, sell := DemandCurveFromBids(orders).0, SupplyCurveFromBids(orders).0;
    var e := Crossed(orders).value;
    DemandPrices(orders);
    IntersectPriceBetween(buy, sell);
    assert buy[e.b].price.Fin?;
  }

  /**
   * Lines 24-39 of `uniform_price_mechanism`: no clearing when the curves
   * do not cross; otherwise the top `b + 1` bids and the cheapest `s + 1`
   * offers trade `min` of their two totals, the bids being short on a tie.
   */
  function ClearingPoint(orders: seq<Order>): (c: Option<Cleared>)
    ensures c.None? <==> Crossed(orders).None?
    ensures c.Some? ==> InRange(c.value.bids, |orders|) && InRange(c.value.offers, |orders|)
  {
    match Crossed(orders)
    case None => None
    case Some(e) =>
      CrossingFinite(orders);
      var bids := Take(DemandCurveFromBids(orders).1, e.b + 1);
      var offers := Take(SupplyCurveFromBids(orders).1, e.s + 1);
      var buyingQty, sellingQty := QtySum(orders, bids), QtySum(orders, offers);
      Some(Cleared(e.q, e.price.r, bids, offers, RealMin(buyingQty, sellingQty),
        buyingQty <= sellingQty))
  }

  /**
   * A clearing point is read off the crossing: its price is the crossing
   * price, and the trading bids and offers are the first `b + 1` and
   * `s + 1` labels of the two curve indexes.
   */
  lemma ClearingPointOf(orders: seq<Order>)
    requires ClearingPoint(orders).Some?
    ensures var c, e := ClearingPoint(orders).value, Crossed(orders).value;
      && e.price == Fin(c.price) && c.q == e.q
      && c.bids == Take(DemandCurveFromBids(orders).1, e.b + 1)
      && c.offers == Take(SupplyCurveFromBids(orders).1, e.s + 1)
  {
    CrossingFinite(orders);
  }

  // ---------------------------------------------------------------------------
  // The greedy fill of the long side
  // ---------------------------------------------------------------------------

  /**
   * Lines 46-52: starting from `added`, each row gets `min(its quantity,
   * traded - added)` until `added` reaches `traded`.
   */
  function FillQuantities(orders: seq<Order>, rows: seq<nat>, traded: real, added: real)
    : (qs: seq<real>)
    requires InRange(rows, |orders|)
    ensures |qs| <= |rows|
    decreases |rows|
  {
    if rows == [] || added >= traded then []
    else
      var x := RealMin(orders[rows[0]].energyQty, traded - added);
      [x] + FillQuantities(orders, rows[1..], traded, added + x)
  }

  predicate NonNegativeQuantities(orders: seq<Order>) {
    forall i :: 0 <= i < |orders| ==> orders[i].energyQty >= 0.0
  }

  /**
   * With non-negative quantities, a long side holding at least the
   * outstanding quantity is filled to exactly that quantity.
   */
  lemma {:induction false} FillSum(orders: seq<Order>, rows: seq<nat>, traded: real, added: real)
    requires InRange(rows, |orders|) && NonNegativeQuantities(orders)
    requires added <= traded && traded - added <= QtySum(orders, rows)
    ensures Sum(FillQuantities(orders, rows, traded, added)) == traded - added
    decreases |rows|
  {
    var qs := FillQuantities(orders, rows, traded, added);
    if rows == [] {
      assert QtySum(orders, rows) == 0.0 by {
        assert Quantities(orders, rows) == [];
      }
    } else if added < traded {
      var x := RealMin(orders[rows[0]].energyQty, traded - added);
      var rest := FillQuantities(orders, rows[1..], traded, added + x);
      assert qs == [x] + rest;
      assert Quantities(orders, rows) == [orders[rows[0]].energyQty] + Quantities(orders, rows[1..]);
      SumConcat([orders[rows[0]].energyQty], Quantities(orders, rows[1..]));
      assert Sum([orders[rows[0]].energyQty]) == orders[rows[0]].energyQty by {
        SumAppend([], orders[rows[0]].energyQty);
      }
      if x == traded - added {
        assert rest == [];
      } else {
        FillSum(orders, rows[1..], traded, added + x);
      }
      SumConcat([x], rest);
      assert Sum([x]) == x by {
        SumAppend([], x);
      }
    }
  }

  /** With non-negative quantities no row is given more than its own quantity, nor less than zero. */
  lemma {:induction false} FillBounded(orders: seq<Order>, rows: seq<nat>, traded: real, added: real)
    requires InRange(rows, |orders|) && NonNegativeQuantities(orders)
    ensures var qs := FillQuantities(orders, rows, traded, added);
      forall k :: 0 <= k < |qs| ==> 0.0 <= qs[k] <= orders[rows[k]].energyQty
    decreases |rows|
  {
    if rows != [] && added < traded {
      var x := RealMin(orders[rows[0]].energyQty, traded - added);
      FillBounded(orders, rows[1..], traded, added + x);
    }
  }

  // ---------------------------------------------------------------------------
  // The ledger
  // ---------------------------------------------------------------------------

  /** The short side's legs: every order with its full quantity, ids from `firstId`. */
  function ShortLegs(orders: seq<Order>, c: Cleared, firstId: nat): (legs: seq<Leg>)
    requires InRange(c.bids, |orders|) && InRange(c.offers, |orders|)
    ensures |legs| == |Short(c)|
  {
    OrderLegs(orders, Short(c), Quantities(orders, Short(c)), c.price, firstId)
  }

  /** The long side's legs: the greedy fill, ids following the short side's. */
  function LongLegs(orders: seq<Order>, c: Cleared, firstId: nat): (legs: seq<Leg>)
    requires InRange(c.bids, |orders|) && InRange(c.offers, |orders|)
    ensures |legs| <= |Long(c)|
  {
    OrderLegs(orders, Long(c), FillQuantities(orders, Long(c), c.traded, 0.0), c.price,
      firstId + |Short(c)|)
  }

  /** Lines 41-52: the legs of a clearing outcome, short side first. */
  function Settle(orders: seq<Order>, c: Cleared, firstId: nat): (legs: seq<Leg>)
    requires InRange(c.bids, |orders|) && InRange(c.offers, |orders|)
    ensures |Short(c)| <= |legs| <= |c.bids| + |c.offers|
  {
    ShortLegs(orders, c, firstId) + LongLegs(orders, c, firstId)
  }

  /** The short side's legs are numbered from `firstId` and carry the price. */
  lemma ShortIds(orders: seq<Order>, c: Cleared, firstId: nat)
    requires InRange(c.bids, |orders|) && InRange(c.offers, |orders|)
    ensures var legs := ShortLegs(orders, c, firstId);
      forall k :: 0 <= k < |legs| ==> legs[k].transId == firstId + k && legs[k].clearingRate == c.price
  {
    OrderLegsFields(orders, Short(c), Quantities(orders, Short(c)), c.price, firstId);
  }

  /** The long side's legs are numbered on from the short side's and carry the price. */
  lemma LongIds(orders: seq<Order>, c: Cleared, firstId: nat)
    requires InRange(c.bids, |orders|) && InRange(c.offers, |orders|)
    ensures var legs := LongLegs(orders, c, firstId);
      forall k :: 0 <= k < |legs| ==>
        legs[k].transId == firstId + |Short(c)| + k && legs[k].clearingRate == c.price
  {
    OrderLegsFields(orders, Long(c), FillQuantities(orders, Long(c), c.traded, 0.0), c.price,
      firstId + |Short(c)|);
  }

  /** Every leg of an outcome carries the clearing price, and ids are consecutive from `firstId`. */
  lemma SettleIds(orders: seq<Order>, c: Cleared, firstId: nat)
    requires InRange(c.bids, |orders|) && InRange(c.offers, |orders|)
    ensures var legs := Settle(orders, c, firstId);
      forall k :: 0 <= k < |legs| ==> legs[k].transId == firstId + k && legs[k].clearingRate == c.price
  {
    ShortIds(orders, c, firstId);
    LongIds(orders, c, firstId);
    LegsConcat(ShortLegs(orders, c, firstId), LongLegs(orders, c, firstId), firstId, c.price);
  }

  /**
   * The legs and the extra value of `uniform_price_mechanism`, leg ids
   * counted up from `firstId`: no legs and an empty list without a
   * crossing, otherwise the settled legs and the clearing point.
   */
  function UniformOutcome(orders: seq<Order>, firstId: nat): (seq<Leg>, Extra) {
    match ClearingPoint(orders)
    case None => ([], EmptyList)
    case Some(c) => (Settle(orders, c, firstId), Clearing(c.q, c.price))
  }

  lemma LegsConcat(a: seq<Leg>, b: seq<Leg>, id: nat, price: real)
    requires forall k :: 0 <= k < |a| ==> a[k].transId == id + k && a[k].clearingRate == price
    requires forall k :: 0 <= k < |b| ==>
      b[k].transId == id + |a| + k && b[k].clearingRate == price
    ensures forall k :: 0 <= k < |a + b| ==>
      (a + b)[k].transId == id + k && (a + b)[k].clearingRate == price
  {
    forall k | 0 <= k < |a + b|
      ensures (a + b)[k].transId == id + k && (a + b)[k].clearingRate == price
    {
      if k >= |a| {
        assert (a + b)[k] == b[k - |a|];
      }
    }
  }

  /** The first `n` labels of an index of one side are orders of that side. */
  lemma TakeSide(orders: seq<Order>, idx: seq<nat>, n: nat, buying: bool)
    requires IndexesSide(orders, idx, buying)
    ensures var t := Take(idx, n);
      forall k :: 0 <= k < |t| ==> orders[t[k]].buying == buying
  {
    var t := Take(idx, n);
    forall k | 0 <= k < |t|
      ensures orders[t[k]].buying == buying
    {
      assert t[k] == idx[k];
    }
  }

  /**
   * The trading bids are buy orders and the trading offers sell orders.
   */
  lemma PopulationSides(orders: seq<Order>)
    requires ClearingPoint(orders).Some?
    ensures var c := ClearingPoint(orders).value;
      && (forall k :: 0 <= k < |c.bids| ==> orders[c.bids[k]].buying)
      && (forall k :: 0 <= k < |c.offers| ==> !orders[c.offers[k]].buying)
  {
    var e := Crossed(orders).value;
    ClearingPointOf(orders);
    DemandSide(orders);
    SupplySide(orders);
    TakeSide(orders, DemandCurveFromBids(orders).1, e.b + 1, true);
    TakeSide(orders, SupplyCurveFromBids(orders).1, e.s + 1, false);
  }

  /**
   * The short side is the bids exactly when their total does not exceed
   * the offers'; with non-negative quantities the traded quantity is the
   * short side's total, which the long side's total covers.
   */
  lemma ClearingTraded(orders: seq<Order>)
    requires ClearingPoint(orders).Some? && NonNegativeQuantities(orders)
    ensures var c := ClearingPoint(orders).value;
      && (c.bidsShort <==> QtySum(orders, c.bids) <= QtySum(orders, c.offers))
      && 0.0 <= c.traded == QtySum(orders, Short(c)) <= QtySum(orders, Long(c))
  {
    var c := ClearingPoint(orders).value;
    SumNonNegative(Quantities(orders, Short(c)));
  }

  /** Entry `k` of `Matched(legs)` is the matched quantity of leg `k`. */
  lemma {:induction false} MatchedAt(legs: seq<Leg>)
    ensures forall k :: 0 <= k < |legs| ==> Matched(legs)[k] == legs[k].matchedQty
  {
    if legs != [] {
      MatchedAt(legs[..|legs| - 1]);
    }
  }

  /** Leg `k` of a run has id `id + k`, the price, quantity `qs[k]` and its order's side as type. */
  lemma {:induction false} OrderLegsFields(orders: seq<Order>, rows: seq<nat>, qs: seq<real>, price: real, id: nat)
    requires InRange(rows, |orders|) && |qs| <= |rows|
    ensures var legs := OrderLegs(orders, rows, qs, price, id);
      forall k :: 0 <= k < |legs| ==>
        && legs[k].transId == id + k && legs[k].clearingRate == price && legs[k].matchedQty == qs[k]
        && legs[k].transType == (if orders[rows[k]].buying then Buying else Selling)
    decreases |qs|
  {
    if qs != [] {
      var n := |qs| - 1;
      OrderLegsFields(orders, rows, qs[..n], price, id);
    }
  }

  /** The legs of a run are matched at exactly the quantities they were built from. */
  lemma OrderLegsMatched(orders: seq<Order>, rows: seq<nat>, qs: seq<real>, price: real, id: nat)
    requires InRange(rows, |orders|) && |qs| <= |rows|
    ensures Matched(OrderLegs(orders, rows, qs, price, id)) == qs
  {
    var legs := OrderLegs(orders, rows, qs, price, id);
    MatchedAt(legs);
    OrderLegsFields(orders, rows, qs, price, id);
    assert forall k :: 0 <= k < |qs| ==> Matched(legs)[k] == qs[k];
  }

  /** Leg `k` of a run is matched at `qs[k]`. */
  lemma OrderLegsQty(orders: seq<Order>, rows: seq<nat>, qs: seq<real>, price: real, id: nat)
    requires InRange(rows, |orders|) && |qs| <= |rows|
    ensures var legs := OrderLegs(orders, rows, qs, price, id);
      forall k :: 0 <= k < |legs| ==> legs[k].matchedQty == qs[k]
  {
    OrderLegsFields(orders, rows, qs, price, id);
  }

  /** Leg `k` of a run is a Buying leg exactly when order `rows[k]` is a bid. */
  lemma OrderLegsTypes(orders: seq<Order>, rows: seq<nat>, qs: seq<real>, price: real, id: nat)
    requires InRange(rows, |orders|) && |qs| <= |rows|
    ensures var legs := OrderLegs(orders, rows, qs, price, id);
      forall k :: 0 <= k < |legs| ==>
        legs[k].transType == (if orders[rows[k]].buying then Buying else Selling)
  {
    OrderLegsFields(orders, rows, qs, price, id);
  }

  /** Each short-side leg carries its order's full quantity and the short side's type. */
  lemma ShortSides(orders: seq<Order>, c: Cleared, firstId: nat)
    requires InRange(c.bids, |orders|) && InRange(c.offers, |orders|)
    requires forall k :: 0 <= k < |c.bids| ==> orders[c.bids[k]].buying
    requires forall k :: 0 <= k < |c.offers| ==> !orders[c.offers[k]].buying
    ensures var legs := ShortLegs(orders, c, firstId);
      forall k :: 0 <= k < |legs| ==>
        && legs[k].matchedQty == orders[Short(c)[k]].energyQty
        && legs[k].transType == (if c.bidsShort then Buying else Selling)
  {
    OrderLegsFields(orders, Short(c), Quantities(orders, Short(c)), c.price, firstId);
  }

  /** Each long-side leg carries the long side's type. */
  lemma LongSides(orders: seq<Order>, c: Cleared, firstId: nat)
    requires InRange(c.bids, |orders|) && InRange(c.offers, |orders|)
    requires forall k :: 0 <= k < |c.bids| ==> orders[c.bids[k]].buying
    requires forall k :: 0 <= k < |c.offers| ==> !orders[c.offers[k]].buying
    ensures var legs := LongLegs(orders, c, firstId);
      forall j :: 0 <= j < |legs| ==> legs[j].transType == (if c.bidsShort then Selling else Buying)
  {
    OrderLegsTypes(orders, Long(c), FillQuantities(orders, Long(c), c.traded, 0.0), c.price,
      firstId + |Short(c)|);
  }

  /**
   * Lines 41-52: the ledger is the short-side legs followed by the
   * long-side legs. Each short-side order gets one leg for its full
   * quantity, long-side orders get at most one leg each in curve order, and
   * the legs of the bids are Buying legs and those of the offers Selling
   * legs.
   */
  lemma UniformSides(orders: seq<Order>, firstId: nat)
    requires ClearingPoint(orders).Some?
    ensures var c := ClearingPoint(orders).value;
      var short, long := ShortLegs(orders, c, firstId), LongLegs(orders, c, firstId);
      && UniformOutcome(orders, firstId).0 == short + long
      && |short| == |Short(c)| && |long| <= |Long(c)|
      && (forall k :: 0 <= k < |short| ==>
            && short[k].matchedQty == orders[Short(c)[k]].energyQty
            && short[k].transType == (if c.bidsShort then Buying else Selling))
      && (forall j :: 0 <= j < |long| ==> long[j].transType == (if c.bidsShort then Selling else Buying))
  {
    PopulationSides(orders);
    ShortSides(orders, ClearingPoint(orders).value, firstId);
    LongSides(orders, ClearingPoint(orders).value, firstId);
  }

  /** The short side's legs add up to the short side's total quantity. */
  lemma ShortBalanced(orders: seq<Order>, c: Cleared, firstId: nat)
    requires InRange(c.bids, |orders|) && InRange(c.offers, |orders|)
    ensures Sum(Matched(ShortLegs(orders, c, firstId))) == QtySum(orders, Short(c))
  {
    OrderLegsMatched(orders, Short(c), Quantities(orders, Short(c)), c.price, firstId);
  }

  /** The long side's legs add up to the traded quantity when the long side covers it. */
  lemma LongBalanced(orders: seq<Order>, c: Cleared, firstId: nat)
    requires InRange(c.bids, |orders|) && InRange(c.offers, |orders|) && NonNegativeQuantities(orders)
    requires 0.0 <= c.traded <= QtySum(orders, Long(c))
    ensures Sum(Matched(LongLegs(orders, c, firstId))) == c.traded
  {
    var fill := FillQuantities(orders, Long(c), c.traded, 0.0);
    OrderLegsMatched(orders, Long(c), fill, c.price, firstId + |Short(c)|);
    FillSum(orders, Long(c), c.traded, 0.0);
  }

  /** No long-side leg is matched above its order's quantity, nor below zero. */
  lemma LongBounded(orders: seq<Order>, c: Cleared, firstId: nat)
    requires InRange(c.bids, |orders|) && InRange(c.offers, |orders|) && NonNegativeQuantities(orders)
    ensures var qs := Matched(LongLegs(orders, c, firstId));
      forall j :: 0 <= j < |qs| ==> 0.0 <= qs[j] <= orders[Long(c)[j]].energyQty
  {
    var fill := FillQuantities(orders, Long(c), c.traded, 0.0);
    OrderLegsMatched(orders, Long(c), fill, c.price, firstId + |Short(c)|);
    assert Matched(LongLegs(orders, c, firstId)) == fill;
    FillBounded(orders, Long(c), c.traded, 0.0);
  }

  /**
   * The ledger balances: with non-negative quantities the short-side legs
   * and the long-side legs each add up to the traded quantity, and no
   * long-side order is given more than its quantity.
   */
  lemma UniformBalanced(orders: seq<Order>, firstId: nat)
    requires ClearingPoint(orders).Some? && NonNegativeQuantities(orders)
    ensures var c := ClearingPoint(orders).value;
      var short, long := ShortLegs(orders, c, firstId), LongLegs(orders, c, firstId);
      && UniformOutcome(orders, firstId).0 == short + long
      && Sum(Matched(short)) == c.traded
      && Sum(Matched(long)) == c.traded
      && forall j :: 0 <= j < |long| ==> 0.0 <= Matched(long)[j] <= orders[Long(c)[j]].energyQty
  {
    ClearingTraded(orders);
    ShortBalanced(orders, ClearingPoint(orders).value, firstId);
    LongBalanced(orders, ClearingPoint(orders).value, firstId);
    LongBounded(orders, ClearingPoint(orders).value, firstId);
  }

  /** The matched supply step is a real offer, whose price bounds the clearing price. */
  lemma CrossingAtOffer(orders: seq<Order>)
    requires Crossed(orders).Some?
    ensures var e, offerIdx := Crossed(orders).value, SupplyCurveFromBids(orders).1;
      e.s < |offerIdx| && Le(Fin(orders[offerIdx[e.s]].energyRate), e.price)
  {
    var buy, sell := DemandCurveFromBids(orders).0, SupplyCurveFromBids(orders).0;
    var e := Crossed(orders).value;
    CrossingFinite(orders);
    SupplyPrices(orders);
    IntersectPriceBetween(buy, sell);
    assert Le(sell[e.s].price, e.price);
  }

  /** When the matched demand step is a real bid, its price bounds the clearing price. */
  lemma CrossingAtBid(orders: seq<Order>)
    requires Crossed(orders).Some?
    requires Crossed(orders).value.b < |DemandCurveFromBids(orders).1|
    ensures var e, bidIdx := Crossed(orders).value, DemandCurveFromBids(orders).1;
      Le(e.price, Fin(orders[bidIdx[e.b]].energyRate))
  {
    var buy, sell := DemandCurveFromBids(orders).0, SupplyCurveFromBids(orders).0;
    var e := Crossed(orders).value;
    DemandPrices(orders);
    IntersectPriceBetween(buy, sell);
    assert Le(e.price, buy[e.b].price);
  }

  /** Every label of `prefix`, the first `n + 1` of an index sorted ascending by rate, has a rate at most `bound`. */
  lemma SortedPrefixBelow(orders: seq<Order>, idx: seq<nat>, n: nat, bound: real, prefix: seq<nat>)
    requires InRange(idx, |orders|) && n < |idx| && prefix == Take(idx, n + 1)
    requires forall i, j :: 0 <= i < j < |idx| ==> orders[idx[i]].energyRate <= orders[idx[j]].energyRate
    requires Le(Fin(orders[idx[n]].energyRate), Fin(bound))
    ensures forall k :: 0 <= k < |prefix| ==> orders[prefix[k]].energyRate <= bound
  {
  }

  /** Every label of `prefix`, the first `n + 1` of an index sorted descending by rate, has a rate at least `bound`. */
  lemma SortedPrefixAbove(orders: seq<Order>, idx: seq<nat>, n: nat, bound: real, prefix: seq<nat>)
    requires InRange(idx, |orders|) && n < |idx| && prefix == Take(idx, n + 1)
    requires forall i, j :: 0 <= i < j < |idx| ==> orders[idx[j]].energyRate <= orders[idx[i]].energyRate
    requires Le(Fin(bound), Fin(orders[idx[n]].energyRate))
    ensures forall k :: 0 <= k < |prefix| ==> bound <= orders[prefix[k]].energyRate
  {
  }

  /** Every one of the first `n + 1` offers of the supply curve asks at most `bound` when offer `n` does. */
  lemma SupplyPrefixBelow(orders: seq<Order>, n: nat, bound: real, prefix: seq<nat>)
    requires n < |SupplyCurveFromBids(orders).1| && prefix == Take(SupplyCurveFromBids(orders).1, n + 1)
    requires Le(Fin(orders[SupplyCurveFromBids(orders).1[n]].energyRate), Fin(bound))
    ensures forall k :: 0 <= k < |prefix| ==> orders[prefix[k]].energyRate <= bound
  {
    SupplySorted(orders);
    SortedPrefixBelow(orders, SupplyCurveFromBids(orders).1, n, bound, prefix);
  }

  /** Every one of the first `n + 1` bids of the demand curve offers at least `bound` when bid `n` does. */
  lemma DemandPrefixAbove(orders: seq<Order>, n: nat, bound: real, prefix: seq<nat>)
    requires n < |DemandCurveFromBids(orders).1| && prefix == Take(DemandCurveFromBids(orders).1, n + 1)
    requires Le(Fin(bound), Fin(orders[DemandCurveFromBids(orders).1[n]].energyRate))
    ensures forall k :: 0 <= k < |prefix| ==> bound <= orders[prefix[k]].energyRate
  {
    DemandSorted(orders);
    SortedPrefixAbove(orders, DemandCurveFromBids(orders).1, n, bound, prefix);
  }

  /** The price is individually rational for sellers: no trading offer asks more than it. */
  lemma OffersRational(orders: seq<Order>)
    requires ClearingPoint(orders).Some?
    ensures var c := ClearingPoint(orders).value;
      forall k :: 0 <= k < |c.offers| ==> orders[c.offers[k]].energyRate <= c.price
  {
    ClearingOffers(orders);
    var c, e := ClearingPoint(orders).value, Crossed(orders).value;
    SupplyPrefixBelow(orders, e.s, c.price, c.offers);
  }

  /** The trading offers are the supply curve up to the crossing step, whose offer asks at most the price. */
  lemma ClearingOffers(orders: seq<Order>)
    requires ClearingPoint(orders).Some?
    ensures var c, e, idx := ClearingPoint(orders).value, Crossed(orders).value, SupplyCurveFromBids(orders).1;
      && e.s < |idx| && c.offers == Take(idx, e.s + 1)
      && Le(Fin(orders[idx[e.s]].energyRate), Fin(c.price))
  {
    ClearingPointOf(orders);
    CrossingAtOffer(orders);
  }

  /**
   * The price is individually rational for buyers too, unless the crossing
   * is at the demand curve's `(inf, 0)` sentinel: no trading bid offers
   * less than it.
   */
  lemma BidsRational(orders: seq<Order>)
    requires ClearingPoint(orders).Some?
    requires Crossed(orders).value.b < |DemandCurveFromBids(orders).1|
    ensures var c := ClearingPoint(orders).value;
      forall k :: 0 <= k < |c.bids| ==> c.price <= orders[c.bids[k]].energyRate
  {
    var c, e := ClearingPoint(orders).value, Crossed(orders).value;
    var idx := DemandCurveFromBids(orders).1;
    assert c.bids == Take(idx, e.b + 1) && e.price == Fin(c.price) by {
      ClearingPointOf(orders);
    }
    assert Le(e.price, Fin(orders[idx[e.b]].energyRate)) by {
      CrossingAtBid(orders);
    }
    DemandPrefixAbove(orders, e.b, c.price, c.bids);
  }

  lemma OrderLegsAppend(orders: seq<Order>, rows: seq<nat>, qs: seq<real>, q: real, price: real, id: nat)
    requires InRange(rows, |orders|) && |qs| < |rows|
    ensures OrderLegs(orders, rows, qs + [q], price, id) ==
      OrderLegs(orders, rows, qs, price, id) + [CreateTransaction(id + |qs|, orders[rows[|qs|]], price, q)]
  {
    assert (qs + [q])[..|qs|] == qs;
  }

  /** `trans.add_transaction(*create_transaction(row, price, x))` for the next row of a run. */
  method AppendLeg(trans: TransactionManager, orders: seq<Order>, rows: seq<nat>, ghost base: seq<Leg>,
                   ghost done: seq<real>, i: nat, x: real, price: real, id: nat)
    requires trans.Valid() && InRange(rows, |orders|) && |done| == i < |rows|
    requires trans.trans == base + OrderLegs(orders, rows, done, price, id)
    modifies trans
    ensures trans.Valid() && trans.trans == base + OrderLegs(orders, rows, done + [x], price, id)
  {
    OrderLegsAppend(orders, rows, done, x, price, id);
    var _ := trans.AddTransaction(CreateTransaction(id + i, orders[rows[i]], price, x));
  }

  /** Lines 42-43: the short side, each order with its full quantity. */
  method AddShortSide(trans: TransactionManager, orders: seq<Order>, rows: seq<nat>, price: real, id: nat)
    returns (nextId: nat)
    requires trans.Valid() && InRange(rows, |orders|)
    modifies trans
    ensures trans.Valid()
    ensures trans.trans == old(trans.trans) + OrderLegs(orders, rows, Quantities(orders, rows), price, id)
    ensures nextId == id + |rows|
  {
    nextId := id;
    ghost var qs := Quantities(orders, rows);
    for i := 0 to |rows|
      invariant trans.Valid() && nextId == id + i
      invariant trans.trans == old(trans.trans) + OrderLegs(orders, rows, qs[..i], price, id)
    {
      AppendLeg(trans, orders, rows, old(trans.trans), qs[..i], i, orders[rows[i]].energyQty, price, id);
      assert qs[..i + 1] == qs[..i] + [orders[rows[i]].energyQty];
      nextId := nextId + 1;
    }
    assert qs[..|rows|] == qs;
  }

  /** One more row of the greedy fill: `x` for row `i`, the rest from `added + x` on. */
  lemma FillStep(orders: seq<Order>, rows: seq<nat>, traded: real, added: real, i: nat, done: seq<real>)
    requires InRange(rows, |orders|) && i < |rows| && added < traded
    requires done + FillQuantities(orders, rows[i..], traded, added) == FillQuantities(orders, rows, traded, 0.0)
    ensures InRange(rows[i + 1..], |orders|)
    ensures var x := RealMin(orders[rows[i]].energyQty, traded - added);
      (done + [x]) + FillQuantities(orders, rows[i + 1..], traded, added + x)
        == FillQuantities(orders, rows, traded, 0.0)
  {
    assert rows[i..][1..] == rows[i + 1..];
  }

  /** Once the rows run out or `added` reaches `traded`, the fill so far is the whole fill. */
  lemma FillDone(orders: seq<Order>, rows: seq<nat>, traded: real, added: real, i: nat, done: seq<real>)
    requires InRange(rows, |orders|) && i <= |rows| && (i == |rows| || added >= traded)
    requires done + FillQuantities(orders, rows[i..], traded, added) == FillQuantities(orders, rows, traded, 0.0)
    ensures done == FillQuantities(orders, rows, traded, 0.0)
  {
    assert FillQuantities(orders, rows[i..], traded, added) == [];
    assert done + [] == done;
  }

  /** Lines 49-51 for row `i` of the long side: its leg for what is still outstanding, up to its quantity. */
  method AppendFill(trans: TransactionManager, orders: seq<Order>, rows: seq<nat>, ghost base: seq<Leg>,
                    ghost done: seq<real>, i: nat, traded: real, added: real, price: real, id: nat)
    returns (x: real)
    requires trans.Valid() && InRange(rows, |orders|) && |done| == i < |rows| && added < traded
    requires done + FillQuantities(orders, rows[i..], traded, added) == FillQuantities(orders, rows, traded, 0.0)
    requires trans.trans == base + OrderLegs(orders, rows, done, price, id)
    modifies trans
    ensures x == RealMin(orders[rows[i]].energyQty, traded - added)
    ensures (done + [x]) + FillQuantities(orders, rows[i + 1..], traded, added + x)
      == FillQuantities(orders, rows, traded, 0.0)
    ensures trans.Valid() && trans.trans == base + OrderLegs(orders, rows, done + [x], price, id)
  {
    x := RealMin(orders[rows[i]].energyQty, traded - added);
    FillStep(orders, rows, traded, added, i, done);
    AppendLeg(trans, orders, rows, base, done, i, x, price, id);
  }

  /**
   * Lines 46-52: the long side in curve order, each order given what is
   * still outstanding up to its quantity, stopping once `quantity_added`
   * reaches `traded`.
   */
  method AddLongSide(trans: TransactionManager, orders: seq<Order>, rows: seq<nat>, traded: real,
                     price: real, id: nat)
    returns (nextId: nat)
    requires trans.Valid() && InRange(rows, |orders|)
    modifies trans
    ensures trans.Valid()
    ensures trans.trans ==
      old(trans.trans) + OrderLegs(orders, rows, FillQuantities(orders, rows, traded, 0.0), price, id)
    ensures nextId == id + |FillQuantities(orders, rows, traded, 0.0)|
  {
    nextId := id;
    ghost var done: seq<real> := [];
    var quantityAdded := 0.0;
    var i := 0;
    assert rows[0..] == rows;
    while i < |rows| && quantityAdded < traded
      invariant 0 <= i <= |rows| && |done| == i && nextId == id + i
      invariant done + FillQuantities(orders, rows[i..], traded, quantityAdded)
        == FillQuantities(orders, rows, traded, 0.0)
      invariant trans.Valid()
      invariant trans.trans == old(trans.trans) + OrderLegs(orders, rows, done, price, id)
    {
      var x := AppendFill(trans, orders, rows, old(trans.trans), done, i, traded, quantityAdded, price, id);
      nextId := nextId + 1;
      quantityAdded := quantityAdded + x;
      done := done + [x];
      i := i + 1;
    }
    FillDone(orders, rows, traded, quantityAdded, i, done);
  }

  /** Lines 41-52: a fresh ledger holding the legs of a clearing outcome. */
  method SettleLedger(orders: seq<Order>, c: Cleared, firstId: nat)
    returns (trans: TransactionManager, nextId: nat)
    requires InRange(c.bids, |orders|) && InRange(c.offers, |orders|)
    ensures fresh(trans) && trans.Valid()
    ensures trans.trans == Settle(orders, c, firstId)
    ensures nextId == firstId + |trans.trans|
  {
    trans := new TransactionManager();
    ghost var short, long := ShortLegs(orders, c, firstId), LongLegs(orders, c, firstId);
    nextId := AddShortSide(trans, orders, Short(c), c.price, firstId);
    assert [] + short == short;
    nextId := AddLongSide(trans, orders, Long(c), c.traded, c.price, nextId);
    assert trans.trans == short + long;
  }

  /**
   * `uniform_price_mechanism`: an empty ledger and an empty list without a
   * crossing, otherwise the settled ledger and the clearing point. Ids are
   * drawn from a counter starting at `firstId`.
   */
  method UniformPriceMechanism(orders: seq<Order>, firstId: nat)
    returns (trans: TransactionManager, extra: Extra, nextId: nat)
    ensures fresh(trans) && trans.Valid()
    ensures trans.trans == UniformOutcome(orders, firstId).0
    ensures extra == UniformOutcome(orders, firstId).1
    ensures nextId == firstId + |trans.trans|
  {
    var point := ClearingPoint(orders);
    if point.None? {
      trans := new TransactionManager();
      nextId := firstId;
      extra := EmptyList;
    } else {
      var c := point.value;
      trans, nextId := SettleLedger(orders, c, firstId);
      extra := Clearing(c.q, c.price);
    }
  }
}
