/**
 * Splitting a ledger cleared on merged bids back onto the original bids
 * (`split_transactions_merged_players`). Each leg of a merged bid becomes
 * one leg per original bid, with the leg's quantity shared in proportion to
 * the original quantities; a fee booked on the merged user is shared the
 * same way among the original users.
 */
module Processing {
  import opened Wrappers
  import opened Seqs
  import opened Process

  /**
   * A leg of the ledger the split reads: its bid (a merged-table position),
   * quantity, price, source, active flag and the user its fee is booked on.
   */
  datatype Trade = Trade(bid: nat, quantity: real, price: real, source: int, active: bool, user: int)

  /** The return shape: the ledger alone, or with the fee book when one was passed. */
  datatype Split = Ledger(trans: seq<Trade>) | LedgerAndFees(trans: seq<Trade>, fees: map<int, real>)

  /** `mapping.get(t.bid, [])`. */
  function Rows(mapping: map<nat, seq<nat>>, t: Trade): (rows: seq<nat>)
    ensures t.bid !in mapping ==> rows == []
  {
    if t.bid in mapping then mapping[t.bid] else []
  }

  /**
   * What the split needs of an entry: rows that exist, listed once each,
   * and a positive total when there are any (with a zero total the share is
   * the scalar 0, and indexing it fails).
   */
  predicate Splittable(bids: seq<Bid>, rows: seq<nat>) {
    InRange(rows, |bids|) && Distinct(rows) && (rows != [] ==> RowsQty(bids, rows) > 0.0)
  }

  /** The share of row `r` in a group whose quantities total `total`. */
  function Share(bids: seq<Bid>, r: nat, total: real): real
    requires r < |bids| && total != 0.0
  {
    bids[r].quantity / total
  }

  /** The part of `fee` that falls to row `r`: the fee times the row's share. */
  function FeeShare(fee: real, bids: seq<Bid>, r: nat, total: real): real
    requires r < |bids| && total != 0.0
  {
    fee * Share(bids, r, total)
  }

  /**
   * Lines 20-38, 45: the legs one merged leg becomes, one per original row
   * in mapping order, each a copy of `t` but for its bid and its share of
   * the quantity; an unmapped leg becomes none.
   */
  function SplitLeg(bids: seq<Bid>, mapping: map<nat, seq<nat>>, t: Trade): (out: seq<Trade>)
    requires Splittable(bids, Rows(mapping, t))
    ensures |out| == |Rows(mapping, t)|
    ensures forall k :: 0 <= k < |out| ==>
      out[k] == t.(bid := Rows(mapping, t)[k], quantity := out[k].quantity)
  {
    var rows := Rows(mapping, t);
    seq(|rows|, k requires 0 <= k < |rows| =>
      t.(bid := rows[k], quantity := t.quantity * Share(bids, rows[k], RowsQty(bids, rows))))
  }

  function Quantities(ts: seq<Trade>): (qs: seq<real>)
    ensures |qs| == |ts|
  {
    seq(|ts|, i requires 0 <= i < |ts| => ts[i].quantity)
  }

  lemma AddShares(x: real, a: real, b: real, total: real)
    requires total != 0.0
    ensures x * (a / total) + x * (b / total) == x * ((a + b) / total)
  {
  }

  lemma ShareOfWhole(x: real, s: real, total: real)
    requires total != 0.0 && s == total
    ensures x * (s / total) == x
  {
  }


  /** Shares of `x` in proportion to `qs` add up to `x` times the share of their sum. */
  lemma {:induction false} ProportionalSum(qs: seq<real>, xs: seq<real>, x: real, total: real)
    requires total != 0.0 && |xs| == |qs|
    requires forall k :: 0 <= k < |qs| ==> xs[k] == x * (qs[k] / total)
    ensures Sum(xs) == x * (Sum(qs) / total)
  {
    if qs != [] {
      var n := |qs| - 1;
      ProportionalSum(qs[..n], xs[..n], x, total);
      AddShares(x, Sum(qs[..n]), qs[n], total);
    }
  }

  /** Shares of `x` in proportion to `qs` add up to `x`. */
  lemma SharesAddUp(qs: seq<real>, xs: seq<real>, x: real, total: real)
    requires total == Sum(qs) && total != 0.0 && |xs| == |qs|
    requires forall k :: 0 <= k < |qs| ==> xs[k] == x * (qs[k] / total)
    ensures Sum(xs) == x
  {
    ProportionalSum(qs, xs, x, total);
    ShareOfWhole(x, Sum(qs), total);
  }

  /**
   * The legs of one merged leg carry exactly its quantity, each in
   * proportion to its original bid's quantity.
   */
  lemma SplitLegConserves(bids: seq<Bid>, mapping: map<nat, seq<nat>>, t: Trade)
    requires Splittable(bids, Rows(mapping, t)) && Rows(mapping, t) != []
    ensures Sum(Quantities(SplitLeg(bids, mapping, t))) == t.quantity
  {
    var rows := Rows(mapping, t);
    var qs := BidQuantities(bids, rows);
    var out := Quantities(SplitLeg(bids, mapping, t));
    var total := RowsQty(bids, rows);
    forall k | 0 <= k < |qs| ensures out[k] == t.quantity * (qs[k] / total) {
    }
    SharesAddUp(qs, out, t.quantity, total);
  }

  /** A leg whose entry holds one bid is passed on whole, relabelled to that bid. */
  lemma SingletonSplit(bids: seq<Bid>, mapping: map<nat, seq<nat>>, t: Trade, r: nat)
    requires t.bid in mapping && mapping[t.bid] == [r] && r < |bids| && bids[r].quantity > 0.0
    ensures Splittable(bids, Rows(mapping, t))
    ensures SplitLeg(bids, mapping, t) == [t.(bid := r)]
  {
    assert BidQuantities(bids, [r]) == [bids[r].quantity];
    SumAppend([], bids[r].quantity);
    assert [] + [bids[r].quantity] == [bids[r].quantity];
    assert t.quantity * (bids[r].quantity / bids[r].quantity) == t.quantity;
  }

  /** The documented example `{0: [0, 1]}`: bid 0 is split across rows 0 and 1. */
  lemma DocExample(bids: seq<Bid>, t: Trade)
    requires |bids| == 2 && bids[0].quantity == 1.0 && bids[1].quantity == 3.0
    requires t.bid == 0 && t.quantity == 2.0
    ensures Splittable(bids, Rows(map[0 := [0, 1]], t))
    ensures SplitLeg(bids, map[0 := [0, 1]], t) == [t.(bid := 0, quantity := 0.5), t.(bid := 1, quantity := 1.5)]
  {
    assert BidQuantities(bids, [0, 1]) == [1.0, 3.0];
    assert [1.0, 3.0][..1] == [1.0] && [1.0][..0] == [];
    assert RowsQty(bids, [0, 1]) == 4.0;
  }

  /** The split ledger: every leg's pieces, in ledger order. */
  function SplitAll(bids: seq<Bid>, mapping: map<nat, seq<nat>>, ts: seq<Trade>): seq<Trade>
    requires forall i :: 0 <= i < |ts| ==> Splittable(bids, Rows(mapping, ts[i]))
  {
    if ts == [] then []
    else
      var n := |ts| - 1;
      SplitAll(bids, mapping, ts[..n]) + SplitLeg(bids, mapping, ts[n])
  }

  /** The total quantity of the legs that have an entry with rows. */
  function MappedQty(mapping: map<nat, seq<nat>>, ts: seq<Trade>): real {
    if ts == [] then 0.0
    else
      var n := |ts| - 1;
      MappedQty(mapping, ts[..n]) + if Rows(mapping, ts[n]) != [] then ts[n].quantity else 0.0
  }

  lemma QuantitiesConcat(a: seq<Trade>, b: seq<Trade>)
    ensures Quantities(a + b) == Quantities(a) + Quantities(b)
  {
  }

  /** The split ledger carries exactly the quantity of the legs it could map. */
  lemma {:induction false} SplitAllConserves(bids: seq<Bid>, mapping: map<nat, seq<nat>>, ts: seq<Trade>)
    requires forall i :: 0 <= i < |ts| ==> Splittable(bids, Rows(mapping, ts[i]))
    ensures Sum(Quantities(SplitAll(bids, mapping, ts))) == MappedQty(mapping, ts)
  {
    if ts != [] {
      var n := |ts| - 1;
      assert forall i :: 0 <= i < n ==> ts[..n][i] == ts[i];
      var before, last := SplitAll(bids, mapping, ts[..n]), SplitLeg(bids, mapping, ts[n]);
      assert SplitAll(bids, mapping, ts) == before + last;
      SplitAllConserves(bids, mapping, ts[..n]);
      QuantitiesConcat(before, last);
      SumConcat(Quantities(before), Quantities(last));
      if Rows(mapping, ts[n]) != [] {
        SplitLegConserves(bids, mapping, ts[n]);
      }
    }
  }

  /** Each original bid's fee share, assigned row by row (line 43); a later row of the same user overwrites. */
  function AssignShares(book: map<int, real>, fee: real, bids: seq<Bid>, rows: seq<nat>, total: real): map<int, real>
    requires InRange(rows, |bids|) && total != 0.0
  {
    if rows == [] then book
    else
      var n := |rows| - 1;
      AssignShares(book, fee, bids, rows[..n], total)[bids[rows[n]].user := FeeShare(fee, bids, rows[n], total)]
  }

  /**
   * Lines 28-30, 41-43: for a group of several rows, the merged user's fee
   * is popped and its shares booked under the original users; otherwise the
   * book is unchanged.
   */
  function FeeStep(book: map<int, real>, bids: seq<Bid>, rows: seq<nat>, user: int): map<int, real>
    requires Splittable(bids, rows)
  {
    if |rows| > 1 && user in book then AssignShares(book - {user}, book[user], bids, rows, RowsQty(bids, rows))
    else book
  }

  /** The fee book after the whole ledger. */
  function FeeAll(book: map<int, real>, bids: seq<Bid>, mapping: map<nat, seq<nat>>, ts: seq<Trade>): map<int, real>
    requires forall i :: 0 <= i < |ts| ==> Splittable(bids, Rows(mapping, ts[i]))
  {
    if ts == [] then book
    else
      var n := |ts| - 1;
      FeeStep(FeeAll(book, bids, mapping, ts[..n]), bids, Rows(mapping, ts[n]), ts[n].user)
  }

  /** The users of a group's rows. */
  function GroupUsers(bids: seq<Bid>, rows: seq<nat>): (us: seq<int>)
    requires InRange(rows, |bids|)
    ensures |us| == |rows|
  {
    seq(|rows|, k requires 0 <= k < |rows| => bids[rows[k]].user)
  }

  predicate DistinctUsers(us: seq<int>) {
    forall i, j :: 0 <= i < j < |us| ==> us[i] != us[j]
  }

  /** With distinct users, row `k`'s user holds the fee times row `k`'s share. */
  lemma {:induction false} AssignSharesAt(book: map<int, real>, fee: real, bids: seq<Bid>, rows: seq<nat>, total: real)
    requires InRange(rows, |bids|) && total != 0.0 && DistinctUsers(GroupUsers(bids, rows))
    ensures forall k :: 0 <= k < |rows| ==>
      bids[rows[k]].user in AssignShares(book, fee, bids, rows, total) &&
      AssignShares(book, fee, bids, rows, total)[bids[rows[k]].user] == FeeShare(fee, bids, rows[k], total)
  {
    if rows != [] {
      var n := |rows| - 1;
      var us := GroupUsers(bids, rows);
      assert GroupUsers(bids, rows[..n]) == us[..n];
      AssignSharesAt(book, fee, bids, rows[..n], total);
      var after := AssignShares(book, fee, bids, rows, total);
      forall k | 0 <= k < n
        ensures bids[rows[k]].user in after && after[bids[rows[k]].user] == FeeShare(fee, bids, rows[k], total)
      {
        assert rows[..n][k] == rows[k] && us[k] != us[n];
      }
    }
  }

  /** A user outside the group keeps what the book held. */
  lemma {:induction false} AssignSharesElse(book: map<int, real>, fee: real, bids: seq<Bid>, rows: seq<nat>, total: real, u: int)
    requires InRange(rows, |bids|) && total != 0.0 && u !in GroupUsers(bids, rows)
    ensures u in AssignShares(book, fee, bids, rows, total) <==> u in book
    ensures u in book ==> AssignShares(book, fee, bids, rows, total)[u] == book[u]
  {
    if rows != [] {
      var n := |rows| - 1;
      var us := GroupUsers(bids, rows);
      assert GroupUsers(bids, rows[..n]) == us[..n];
      assert us[n] == bids[rows[n]].user;
      AssignSharesElse(book, fee, bids, rows[..n], total, u);
    }
  }

  /** One more row of the group extends the book by that row's share. */
  lemma AssignSharesNext(book: map<int, real>, fee: real, bids: seq<Bid>, rows: seq<nat>, total: real, k: nat)
    requires InRange(rows, |bids|) && total != 0.0 && k < |rows|
    ensures AssignShares(book, fee, bids, rows[..k + 1], total) ==
      AssignShares(book, fee, bids, rows[..k], total)[bids[rows[k]].user := FeeShare(fee, bids, rows[k], total)]
  {
    assert rows[..k + 1][..k] == rows[..k];
  }

  /**
   * With distinct users, row `k`'s user holds the fee times row `k`'s share,
   * and every user outside the group keeps what the book held.
   */
  lemma AssignSharesSpec(book: map<int, real>, fee: real, bids: seq<Bid>, rows: seq<nat>, total: real)
    requires InRange(rows, |bids|) && total != 0.0 && DistinctUsers(GroupUsers(bids, rows))
    ensures forall k :: 0 <= k < |rows| ==>
      bids[rows[k]].user in AssignShares(book, fee, bids, rows, total) &&
      AssignShares(book, fee, bids, rows, total)[bids[rows[k]].user] == FeeShare(fee, bids, rows[k], total)
    ensures forall u :: u !in GroupUsers(bids, rows) ==>
      (u in AssignShares(book, fee, bids, rows, total) <==> u in book) &&
      (u in book ==> AssignShares(book, fee, bids, rows, total)[u] == book[u])
  {
    AssignSharesAt(book, fee, bids, rows, total);
    forall u | u !in GroupUsers(bids, rows)
      ensures (u in AssignShares(book, fee, bids, rows, total) <==> u in book) &&
        (u in book ==> AssignShares(book, fee, bids, rows, total)[u] == book[u])
    {
      AssignSharesElse(book, fee, bids, rows, total, u);
    }
  }

  /** What the book holds for each of `us`, 0 for a user it does not hold. */
  function Booked(book: map<int, real>, us: seq<int>): (fs: seq<real>)
    ensures |fs| == |us|
  {
    seq(|us|, k requires 0 <= k < |us| => if us[k] in book then book[us[k]] else 0.0)
  }

  /** Shares of `fee` booked for distinct users add up to the fee. */
  lemma SharesTotal(book: map<int, real>, fee: real, bids: seq<Bid>, rows: seq<nat>, total: real)
    requires InRange(rows, |bids|) && total == RowsQty(bids, rows) && total > 0.0
    requires forall k :: 0 <= k < |rows| ==>
      bids[rows[k]].user in book && book[bids[rows[k]].user] == FeeShare(fee, bids, rows[k], total)
    ensures Sum(Booked(book, GroupUsers(bids, rows))) == fee
  {
    var fees := Booked(book, GroupUsers(bids, rows));
    var qs := BidQuantities(bids, rows);
    forall k | 0 <= k < |qs| ensures fees[k] == fee * (qs[k] / total) {
      var u := bids[rows[k]].user;
      assert GroupUsers(bids, rows)[k] == u && u in book;
      assert fees[k] == book[u];
      assert book[u] == FeeShare(fee, bids, rows[k], total);
      assert Share(bids, rows[k], total) == qs[k] / total;
    }
    SharesAddUp(qs, fees, fee, total);
  }

  /**
   * The merged user's fee, when booked, is shared among the original users
   * of a group of several distinct users: their shares add up to the fee,
   * the merged user is no longer booked unless one of them, and nobody
   * else's fee changes.
   */
  lemma FeeStepShares(book: map<int, real>, bids: seq<Bid>, rows: seq<nat>, user: int)
    requires Splittable(bids, rows) && |rows| > 1 && user in book && DistinctUsers(GroupUsers(bids, rows))
    ensures forall k :: 0 <= k < |rows| ==> bids[rows[k]].user in FeeStep(book, bids, rows, user)
    ensures Sum(Booked(FeeStep(book, bids, rows, user), GroupUsers(bids, rows))) == book[user]
    ensures user !in GroupUsers(bids, rows) ==> user !in FeeStep(book, bids, rows, user)
    ensures forall u :: u !in GroupUsers(bids, rows) && u != user ==>
      (u in FeeStep(book, bids, rows, user) <==> u in book) &&
      (u in book ==> FeeStep(book, bids, rows, user)[u] == book[u])
  {
    AssignSharesSpec(book - {user}, book[user], bids, rows, RowsQty(bids, rows));
    SharesTotal(FeeStep(book, bids, rows, user), book[user], bids, rows, RowsQty(bids, rows));
  }

  // ---------------------------------------------------------------------------
  // The split, step by step
  // ---------------------------------------------------------------------------

  /** A fee dictionary the split updates in place. */
  class FeeBook {
    var fees: map<int, real>

    constructor (fees: map<int, real>)
      ensures this.fees == fees
    {
      this.fees := fees;
    }

    /** `fees.pop(user, None)`. */
    method Pop(user: int) returns (fee: Option<real>)
      modifies this
      ensures user in old(fees) ==> fee == Some(old(fees)[user])
      ensures user !in old(fees) ==> fee == None
      ensures fees == old(fees) - {user}
    {
      if user in fees {
        fee := Some(fees[user]);
      } else {
        fee := None;
      }
      fees := fees - {user};
    }
  }

  /** One iteration of the outer loop (lines 20-45): the pieces of `t`, and the fee book updated. */
  method SplitOne(bids: seq<Bid>, mapping: map<nat, seq<nat>>, t: Trade, fees: FeeBook?) returns (out: seq<Trade>)
    requires Splittable(bids, Rows(mapping, t))
    modifies fees
    ensures out == SplitLeg(bids, mapping, t)
    ensures fees != null ==> fees.fees == FeeStep(old(fees.fees), bids, Rows(mapping, t), t.user)
  {
    var rows := Rows(mapping, t);
    var total := RowsQty(bids, rows);
    var feePerUser := None;
    if |rows| > 1 && fees != null {
      feePerUser := fees.Pop(t.user);
    }
    ghost var popped := if fees != null then fees.fees else map[];
    out := [];
    for k := 0 to |rows|
      invariant out == SplitLeg(bids, mapping, t)[..k]
      invariant fees != null && feePerUser.Some? ==> fees.fees == AssignShares(popped, feePerUser.value, bids, rows[..k], total)
      invariant fees != null && feePerUser.None? ==> fees.fees == popped
    {
      var r := rows[k];
      var piece := t.(bid := r, quantity := t.quantity * Share(bids, r, total));
      assert SplitLeg(bids, mapping, t)[k] == piece;
      assert SplitLeg(bids, mapping, t)[..k + 1] == SplitLeg(bids, mapping, t)[..k] + [piece];
      if feePerUser.Some? {
        AssignSharesNext(popped, feePerUser.value, bids, rows, total, k);
        fees.fees := fees.fees[bids[r].user := FeeShare(feePerUser.value, bids, r, total)];
      }
      out := out + [piece];
    }
    assert rows[..|rows|] == rows;
  }

  /**
   * `split_transactions_merged_players` (lines 13-47): the split ledger,
   * with the fee book updated in place and returned beside it when given.
   */
  method SplitTransactionsMergedPlayers(transactions: seq<Trade>, bids: seq<Bid>, mapping: map<nat, seq<nat>>, fees: FeeBook?)
    returns (result: Split)
    requires forall i :: 0 <= i < |transactions| ==> Splittable(bids, Rows(mapping, transactions[i]))
    modifies fees
    ensures result.trans == SplitAll(bids, mapping, transactions)
    ensures fees == null ==> result.Ledger?
    ensures fees != null ==> result == LedgerAndFees(result.trans, fees.fees)
    ensures fees != null ==> fees.fees == FeeAll(old(fees.fees), bids, mapping, transactions)
  {
    ghost var book := if fees != null then fees.fees else map[];
    var newTrans := [];
    for i := 0 to |transactions|
      invariant newTrans == SplitAll(bids, mapping, transactions[..i])
      invariant fees != null ==> fees.fees == FeeAll(book, bids, mapping, transactions[..i])
    {
      assert transactions[..i + 1][..i] == transactions[..i];
      var pieces := SplitOne(bids, mapping, transactions[i], fees);
      newTrans := newTrans + pieces;
    }
    assert transactions[..|transactions|] == transactions;
    if fees != null {
      result := LedgerAndFees(newTrans, fees.fees);
    } else {
      result := Ledger(newTrans);
    }
  }
}
