/**
 * The mechanism adapter (`Mechanism`): it holds a clearing algorithm and a
 * batch of orders, optionally merges same-price orders before clearing, skips
 * the algorithm when every order is on one side, and optionally splits the
 * ledger back onto the original orders afterwards.
 *
 * The algorithm (with its extra arguments already bound) is a total function
 * from the order batch to a ledger and its extra value. The same-price merge
 * is a parameter too: the aggregation in `Process` works on a different
 * column schema than the order table, so the two are not composed here.
 */
module MechanismAdapter {
  import opened Wrappers
  import opened Orders
  import opened Transactions
  import Uniform

  /** A clearing algorithm: the ledger and the extra value for a batch. */
  type Algorithm = seq<Order> -> (seq<Leg>, Extra)

  /** A same-price merge: the merged batch and the map from merged row to original rows. */
  type Merge = seq<Order> -> (seq<Order>, map<nat, seq<nat>>)

  /** Every order of the batch is on the same side (vacuously so for an empty batch). */
  predicate AllOneSide(orders: seq<Order>) {
    forall i, j :: 0 <= i < |orders| && 0 <= j < |orders| ==> orders[i].buying == orders[j].buying
  }

  /** No order on the given side among the first `n` leaves that side's row list empty. */
  lemma {:induction false} NoneOnSide(orders: seq<Order>, buying: bool, n: nat)
    requires n <= |orders|
    requires forall i :: 0 <= i < |orders| ==> orders[i].buying != buying
    ensures SideRowsUpTo(orders, buying, n) == []
  {
    if n > 0 {
      NoneOnSide(orders, buying, n - 1);
    }
  }

  /**
   * The adapter's test, "the number of bids is 0 or N", holds exactly when
   * every order is on one side.
   */
  lemma OneSidedCount(orders: seq<Order>)
    ensures (|SideRows(orders, true)| == 0 || |SideRows(orders, true)| == |orders|) <==> AllOneSide(orders)
  {
    var nb := |SideRows(orders, true)|;
    SideRowsPartition(orders, |orders|);
    if nb == 0 {
      forall i | 0 <= i < |orders| ensures !orders[i].buying {
        if orders[i].buying {
          SideRowsComplete(orders, true, i);
        }
      }
    } else if nb == |orders| {
      forall i | 0 <= i < |orders| ensures orders[i].buying {
        if !orders[i].buying {
          SideRowsComplete(orders, false, i);
        }
      }
    } else {
      var b := SideRows(orders, true)[0];
      var s := SideRows(orders, false)[0];
      assert orders[b].buying && !orders[s].buying;
    }
    if AllOneSide(orders) && |orders| > 0 {
      if orders[0].buying {
        NoneOnSide(orders, false, |orders|);
      } else {
        NoneOnSide(orders, true, |orders|);
      }
    }
  }

  class Mechanism {
    const algo: Algorithm
    const merge: bool
    /** The batch the algorithm sees: the merged batch when `merge` is set. */
    var orders: seq<Order>
    /** The batch as given; only recorded when `merge` is set. */
    var oldOrders: Option<seq<Order>>
    /** Merged row to original rows; only recorded when `merge` is set. */
    var maping: Option<map<nat, seq<nat>>>

    /** `__init__` (lines 15-23): stores the algorithm and the sanitized batch. */
    constructor (algo: Algorithm, orders: seq<Order>, merge: bool, mergeSamePrice: Merge)
      ensures this.algo == algo && this.merge == merge
      ensures !merge ==> this.orders == orders && oldOrders == None && maping == None
      ensures merge ==>
        this.orders == mergeSamePrice(orders).0 && oldOrders == Some(orders) && maping == Some(mergeSamePrice(orders).1)
    {
      this.algo := algo;
      this.merge := merge;
      this.orders := [];
      this.oldOrders := None;
      this.maping := None;
      new;
      var sanitized := SanitizeBids(orders, mergeSamePrice);
      this.orders := sanitized;
    }

    /**
     * `_sanitize_bids` (lines 25-37): with `merge`, records the original batch
     * and the mapping and returns the merged batch; otherwise returns the
     * batch unchanged and records nothing.
     */
    method SanitizeBids(orders: seq<Order>, mergeSamePrice: Merge) returns (newOrders: seq<Order>)
      modifies this
      ensures this.orders == old(this.orders)
      ensures !merge ==> newOrders == orders && oldOrders == old(oldOrders) && maping == old(maping)
      ensures merge ==>
        newOrders == mergeSamePrice(orders).0 && oldOrders == Some(orders) && maping == Some(mergeSamePrice(orders).1)
    {
      if merge {
        oldOrders := Some(orders);
        var merged := mergeSamePrice(orders);
        newOrders := merged.0;
        maping := Some(merged.1);
      } else {
        newOrders := orders;
      }
    }

    /**
     * `_run` (lines 39-51): a batch with all orders on one side (or none)
     * clears to an empty ledger and an empty extra value without consulting
     * the algorithm; any other batch gets the algorithm's answer unchanged.
     */
    function RunAlgo(): (r: (seq<Leg>, Extra))
      reads this
      ensures AllOneSide(orders) ==> r == ([], NoExtra)
      ensures !AllOneSide(orders) ==> r == algo(orders)
    {
      OneSidedCount(orders);
      var nb := |SideRows(orders, true)|;
      if nb != 0 && nb != |orders| then algo(orders) else ([], NoExtra)
    }

    /**
     * `_cleanup` (lines 53-62): the ledger unchanged without `merge`. With
     * `merge` it reads an attribute the constructor never sets, so it fails.
     */
    function Cleanup(trans: seq<Leg>): (r: Option<seq<Leg>>)
      reads this
      ensures r.Some? <==> !merge
      ensures r.Some? ==> r.value == trans
    {
      if merge then None else Some(trans)
    }

    /**
     * `run` (lines 64-70): `_run` then `_cleanup`; the extra value passes
     * through untouched.
     */
    function Run(): (r: Option<(seq<Leg>, Extra)>)
      reads this
      ensures merge ==> r == None
      ensures !merge && AllOneSide(orders) ==> r == Some(([], NoExtra))
      ensures !merge && !AllOneSide(orders) ==> r == Some(algo(orders))
    {
      var (trans, extra) := RunAlgo();
      match Cleanup(trans)
      case None => None
      case Some(t) => Some((t, extra))
    }
  }

  /**
   * `Mechanism(algo, orders, merge=...).run()`: with `merge` the run fails;
   * without it, a one-sided batch clears to nothing and any other batch gets
   * the algorithm's answer on the batch as given.
   */
  method BuildAndRun(algo: Algorithm, orders: seq<Order>, merge: bool, mergeSamePrice: Merge)
    returns (r: Option<(seq<Leg>, Extra)>)
    ensures merge ==> r == None
    ensures !merge && AllOneSide(orders) ==> r == Some(([], NoExtra))
    ensures !merge && !AllOneSide(orders) ==> r == Some(algo(orders))
  {
    var m := new Mechanism(algo, orders, merge, mergeSamePrice);
    r := m.Run();
  }

  /**
   * `UniformPrice(bids).run()`: the uniform-price clearing behind the
   * adapter, leg ids counted up from `firstId`. A one-sided batch clears to
   * nothing with an empty extra value; any other batch gets the uniform
   * outcome.
   */
  method UniformPrice(orders: seq<Order>, firstId: nat) returns (r: Option<(seq<Leg>, Extra)>)
    ensures AllOneSide(orders) ==> r == Some(([], NoExtra))
    ensures !AllOneSide(orders) ==> r == Some(Uniform.UniformOutcome(orders, firstId))
  {
    r := BuildAndRun(o => Uniform.UniformOutcome(o, firstId), orders, false, o => (o, map[]));
  }
}
