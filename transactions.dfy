/**
 * Transaction legs and the append-only ledger (`TransactionManager`).
 * A blank cell (`""`) in a numeric column is `None`.
 */
module Transactions {
  import opened Wrappers
  import opened ExtReal
  import opened Orders

  datatype TransType = Buying | Selling

  /** One ledger leg, the 18 columns in the ledger's order. `transId` is an abstract fresh id. */
  datatype Leg = Leg(
    transId: nat,
    buyer: string,
    buyerId: string,
    unitArea: string,
    bidId: string,
    bidQty: Option<real>,
    bidRate: Option<real>,
    bidTime: string,
    seller: string,
    sellerId: string,
    offerId: string,
    offerQty: Option<real>,
    offerRate: Option<real>,
    offerTime: string,
    clearingRate: real,
    matchedQty: real,
    deliveryTime: string,
    transType: TransType)

  /**
   * The two legs of a bilateral trade between `xb` and `xs` as the pairwise
   * and cluster mechanisms write them: both carry the buyer's and the
   * seller's columns and differ only in unit area and leg type.
   */
  function TradeLegs(id: nat, xb: Order, xs: Order, price: real, qty: real): (legs: seq<Leg>)
    ensures |legs| == 2
    ensures legs[0].transType == Buying && legs[1].transType == Selling
    ensures legs[0].transId == id && legs[1].transId == id
    ensures legs[0].unitArea == xb.unitArea && legs[1].unitArea == xs.unitArea
    ensures forall k :: 0 <= k < 2 ==>
      legs[k].bidId == xb.orderId && legs[k].offerId == xs.orderId &&
      legs[k].clearingRate == price && legs[k].matchedQty == qty &&
      legs[k].bidRate == Some(xb.energyRate) && legs[k].offerRate == Some(xs.energyRate)
  {
    var b := Leg(id, xb.user, xb.userId, xb.unitArea, xb.orderId, Some(xb.energyQty),
      Some(xb.energyRate), xb.bidOfferTime, xs.user, xs.userId, xs.orderId,
      Some(xs.energyQty), Some(xs.energyRate), xs.bidOfferTime, price, qty,
      xb.deliveryTime, Buying);
    [b, b.(unitArea := xs.unitArea, transType := Selling)]
  }

  /** A trade's buying leg, then its selling leg, appended to the ledger. */
  method AddTradeLegs(trans: TransactionManager, id: nat, xb: Order, xs: Order, price: real, qty: real)
    requires trans.Valid()
    modifies trans
    ensures trans.Valid() && trans.trans == old(trans.trans) + TradeLegs(id, xb, xs, price, qty)
  {
    var legs := TradeLegs(id, xb, xs, price, qty);
    var _ := trans.AddTransaction(legs[0]);
    var _ := trans.AddTransaction(legs[1]);
    assert legs == [legs[0], legs[1]];
  }

  /** The second value a mechanism returns next to its ledger. */
  datatype Extra =
    | NoExtra                                  // an empty `OrderedDict()`
    | EmptyList                                // `[]`
    | Clearing(quantity: Ext, price: real)     // `{'clearing quantity': q, 'clearing price': p}`
    | TradingList(rounds: seq<seq<(nat, nat)>>) // `{'trading_list': [...]}`
    | BatchEcho(orders: seq<Order>)            // both keys bound to the whole order batch

  /** The ledger: a list of legs and a counter. */
  class TransactionManager {
    var trans: seq<Leg>
    var nTrans: nat

    ghost predicate Valid()
      reads this
    {
      nTrans == |trans|
    }

    constructor ()
      ensures Valid() && trans == []
    {
      trans := [];
      nTrans := 0;
    }

    /** Appends one leg and returns its zero-based index; earlier legs are untouched. */
    method AddTransaction(leg: Leg) returns (index: nat)
      requires Valid()
      modifies this
      ensures Valid() && trans == old(trans) + [leg]
      ensures index == |old(trans)| && trans[index] == leg
    {
      trans := trans + [leg];
      nTrans := nTrans + 1;
      index := nTrans - 1;
    }

    /**
     * A new ledger holding this ledger's legs followed by `other`'s. Neither
     * input is modified (the method may modify nothing that already exists).
     * The source's `isinstance` assertion is discharged by typing.
     */
    method Merge(other: TransactionManager) returns (merged: TransactionManager)
      requires Valid() && other.Valid()
      ensures fresh(merged) && merged.Valid()
      ensures merged.trans == trans + other.trans
    {
      merged := new TransactionManager();
      for i := 0 to |trans|
        invariant merged.Valid() && merged.trans == trans[..i]
      {
        var _ := merged.AddTransaction(trans[i]);
        assert trans[..i + 1] == trans[..i] + [trans[i]];
      }
      for i := 0 to |other.trans|
        invariant merged.Valid() && merged.trans == trans + other.trans[..i]
      {
        var _ := merged.AddTransaction(other.trans[i]);
        assert other.trans[..i + 1] == other.trans[..i] + [other.trans[i]];
      }
    }
  }
}
