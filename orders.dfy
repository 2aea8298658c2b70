/**
 * Orders and the append-only order store (`OrderManager`). An order batch is
 * a sequence; an order's row label is its position in the batch.
 */
module Orders {
  import opened Wrappers

  /** One row of the order table, fields in the store's column order. */
  datatype Order = Order(
    user: string,
    userId: string,
    unitArea: string,
    orderId: string,
    energyQty: real,
    energyRate: real,
    bidOfferTime: string,
    deliveryTime: string,
    buying: bool,            // the `type` column: true for a bid, false for an offer
    attributes: Option<string>,
    requirements: Option<string>,
    power: real,             // the `power[kW]` column
    area: Option<string>,
    direction: Option<string>)

  /** Row labels `0..n-1` of the orders on one side, in batch order. */
  function SideRowsUpTo(orders: seq<Order>, buying: bool, n: nat): (rows: seq<nat>)
    requires n <= |orders|
    ensures forall k :: 0 <= k < |rows| ==> rows[k] < n && orders[rows[k]].buying == buying
  {
    if n == 0 then []
    else
      var rows := SideRowsUpTo(orders, buying, n - 1);
      if orders[n - 1].buying == buying then rows + [n - 1] else rows
  }

  /** `orders[orders.type]` (buying) or `orders[~orders.type]` (selling), as row labels. */
  function SideRows(orders: seq<Order>, buying: bool): (rows: seq<nat>)
    ensures forall k :: 0 <= k < |rows| ==> rows[k] < |orders| && orders[rows[k]].buying == buying
  {
    SideRowsUpTo(orders, buying, |orders|)
  }

  /** Every row on the side among the first `n` is selected. */
  lemma {:induction false} SideRowsUpToComplete(orders: seq<Order>, buying: bool, n: nat, i: nat)
    requires n <= |orders| && i < n && orders[i].buying == buying
    ensures i in SideRowsUpTo(orders, buying, n)
  {
    var prev, rows := SideRowsUpTo(orders, buying, n - 1), SideRowsUpTo(orders, buying, n);
    assert rows == prev + [n - 1] || rows == prev;
    if i < n - 1 {
      SideRowsUpToComplete(orders, buying, n - 1, i);
      var j :| 0 <= j < |prev| && prev[j] == i;
      assert rows[j] == i;
    } else {
      assert rows == prev + [i];
      assert rows[|prev|] == i;
    }
  }

  /** Every row on the side is selected: with the ensures of `SideRows`, exactly those rows are. */
  lemma SideRowsComplete(orders: seq<Order>, buying: bool, i: nat)
    requires i < |orders| && orders[i].buying == buying
    ensures i in SideRows(orders, buying)
  {
    SideRowsUpToComplete(orders, buying, |orders|, i);
  }

  predicate Increasing(rows: seq<nat>) {
    forall k, l :: 0 <= k < l < |rows| ==> rows[k] < rows[l]
  }

  /** The rows of one side come in increasing batch order, so each appears once. */
  lemma {:induction false} SideRowsIncreasing(orders: seq<Order>, buying: bool, n: nat)
    requires n <= |orders|
    ensures Increasing(SideRowsUpTo(orders, buying, n))
  {
    if n > 0 {
      SideRowsIncreasing(orders, buying, n - 1);
      var prev := SideRowsUpTo(orders, buying, n - 1);
      assert forall k :: 0 <= k < |prev| ==> prev[k] < n - 1;
      var rows := SideRowsUpTo(orders, buying, n);
      assert rows == if orders[n - 1].buying == buying then prev + [n - 1] else prev;
      forall k, l | 0 <= k < l < |rows|
        ensures rows[k] < rows[l]
      {
        assert rows[k] == prev[k];
        if l < |prev| {
          assert rows[l] == prev[l];
          assert prev[k] < prev[l];
        } else {
          assert rows[l] == n - 1;
        }
      }
    }
  }

  /** The two sides partition the batch: `Nb + Ns` is the number of orders. */
  lemma {:induction false} SideRowsPartition(orders: seq<Order>, n: nat)
    requires n <= |orders|
    ensures |SideRowsUpTo(orders, true, n)| + |SideRowsUpTo(orders, false, n)| == n
  {
    if n > 0 {
      SideRowsPartition(orders, n - 1);
    }
  }

  /** Every order has a strictly positive quantity (checked before the engine runs). */
  predicate PositiveQuantities(orders: seq<Order>) {
    forall i :: 0 <= i < |orders| ==> orders[i].energyQty > 0.0
  }

  /** The order store: a list of rows and a counter. */
  class OrderManager {
    var orders: seq<Order>
    var nOrders: nat

    ghost predicate Valid()
      reads this
    {
      nOrders == |orders|
    }

    constructor ()
      ensures Valid() && orders == []
    {
      orders := [];
      nOrders := 0;
    }

    /**
     * Appends one order and returns its zero-based index. Nothing is
     * validated; the optional columns take their defaults.
     */
    method AddOrder(user: string, userId: string, unitArea: string, orderId: string,
                    energyQty: real, energyRate: real, bidOfferTime: string,
                    deliveryTime: string, buying: bool,
                    attributes: Option<string> := None, requirements: Option<string> := None,
                    power: real := 0.0, area: Option<string> := None,
                    direction: Option<string> := None)
      returns (index: nat)
      requires Valid()
      modifies this
      ensures Valid()
      ensures orders == old(orders) + [Order(user, userId, unitArea, orderId, energyQty,
        energyRate, bidOfferTime, deliveryTime, buying, attributes, requirements, power,
        area, direction)]
      ensures index == |old(orders)| && orders[index].orderId == orderId
    {
      orders := orders + [Order(user, userId, unitArea, orderId, energyQty, energyRate,
        bidOfferTime, deliveryTime, buying, attributes, requirements, power, area, direction)];
      nOrders := nOrders + 1;
      index := nOrders - 1;
    }
  }

  /**
   * A client of the store: indices are consecutive, earlier rows are kept and
   * the optional columns take their defaults when left out.
   */
  method AddTwoOrders(a: Order, b: Order) returns (m: OrderManager)
    ensures fresh(m) && m.Valid() && |m.orders| == 2 && m.orders[0] == a
    ensures m.orders[1].orderId == b.orderId && m.orders[1].energyQty == b.energyQty
    ensures m.orders[1].power == 0.0 && m.orders[1].attributes == None
    ensures m.orders[1].requirements == None && m.orders[1].area == None
    ensures m.orders[1].direction == None
  {
    m := new OrderManager();
    var i := m.AddOrder(a.user, a.userId, a.unitArea, a.orderId, a.energyQty, a.energyRate,
      a.bidOfferTime, a.deliveryTime, a.buying, a.attributes, a.requirements, a.power,
      a.area, a.direction);
    var j := m.AddOrder(b.user, b.userId, b.unitArea, b.orderId, b.energyQty, b.energyRate,
      b.bidOfferTime, b.deliveryTime, b.buying);
    assert i == 0 && j == 1;
  }
}
