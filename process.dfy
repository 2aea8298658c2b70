/**
 * Same-price aggregation (`merge_same_price`). Each side of a batch of bids
 * is grouped by rounded price; a group becomes one merged bid carrying the
 * summed quantity, and a group of several bids gets a new synthetic user id
 * from a counter that starts above every existing id. A row label is the
 * bid's position in the batch; the rounding is the key function `key`.
 */
module Process {
  import Seqs

  // ---------------------------------------------------------------------------
  // Bids and the id generator
  // ---------------------------------------------------------------------------

  /** One bid, the columns `user, price, quantity, buying, time, divisible`. */
  datatype Bid = Bid(user: int, price: real, quantity: real, buying: bool, time: int, divisible: bool)

  /**
   * The id generator. Its counter lives on one shared object, as the
   * source's counter lives on the `new_player_id` function itself: every
   * `NewPlayerId` resets it for all generators handed out before.
   */
  class IdGenerator {
    var index: int

    constructor ()
      ensures index == 0
    {
      index := 0;
    }

    /** `new_player_id(start)`: the next new id is `start`. */
    method NewPlayerId(start: int)
      modifies this
      ensures index == start
    {
      index := start;
    }

    /**
     * `assign_id(users)` (and the legacy `new_id`): a group of one keeps its
     * user's id, a larger group takes the next new id.
     */
    method AssignId(users: seq<int>) returns (id: int)
      requires |users| > 0
      modifies this
      ensures |users| > 1 ==> id == old(index) && index == old(index) + 1
      ensures |users| == 1 ==> id == users[0] && index == old(index)
    {
      if |users| > 1 {
        id := index;
        index := index + 1;
      } else {
        id := users[0];
      }
    }
  }

  /** The documented example: from 6, `[3]`, `[5]`, `[0, 1]`, `[2, 4]` get 3, 5, 6, 7. */
  method IdExample() returns (ids: seq<int>)
    ensures ids == [3, 5, 6, 7]
  {
    var gen := new IdGenerator();
    gen.NewPlayerId(6);
    var a := gen.AssignId([3]);
    var b := gen.AssignId([5]);
    var c := gen.AssignId([0, 1]);
    var d := gen.AssignId([2, 4]);
    ids := [a, b, c, d];
  }

  // ---------------------------------------------------------------------------
  // Rows, keys and groups
  // ---------------------------------------------------------------------------

  predicate InRange(rows: seq<nat>, n: nat) {
    forall k :: 0 <= k < |rows| ==> rows[k] < n
  }

  /** No row label is listed twice. */
  predicate Distinct(rows: seq<nat>) {
    forall i, j :: 0 <= i < j < |rows| ==> rows[i] != rows[j]
  }

  /** Row labels of one side (`df[df.buying]` or `df[~df.buying]`), in batch order. */
  function SideRows(df: seq<Bid>, buying: bool, n: nat): (rows: seq<nat>)
    requires n <= |df|
    ensures forall k :: 0 <= k < |rows| ==> rows[k] < n && df[rows[k]].buying == buying
  {
    if n == 0 then []
    else
      var rows := SideRows(df, buying, n - 1);
      if df[n - 1].buying == buying then rows + [n - 1] else rows
  }

  lemma {:induction false} SideRowsComplete(df: seq<Bid>, buying: bool, n: nat, r: nat)
    requires n <= |df| && r < n && df[r].buying == buying
    ensures r in SideRows(df, buying, n)
  {
    if r < n - 1 {
      SideRowsComplete(df, buying, n - 1, r);
    }
  }

  lemma {:induction false} SideRowsDistinct(df: seq<Bid>, buying: bool, n: nat)
    requires n <= |df|
    ensures Distinct(SideRows(df, buying, n))
  {
    if n > 0 {
      SideRowsDistinct(df, buying, n - 1);
      var prev, rows := SideRows(df, buying, n - 1), SideRows(df, buying, n);
      forall i, j | 0 <= i < j < |rows| ensures rows[i] != rows[j] {
        assert rows[i] == prev[i];
        if j < |prev| {
          assert rows[j] == prev[j];
        }
      }
    }
  }

  /** The labels among `rows` whose rounded price is `k`, in order. */
  function KeyRows(df: seq<Bid>, key: real -> real, rows: seq<nat>, k: real): (r: seq<nat>)
    requires InRange(rows, |df|)
    ensures InRange(r, |df|)
    ensures forall j :: 0 <= j < |r| ==> r[j] in rows && key(df[r[j]].price) == k
  {
    if rows == [] then []
    else
      var n := |rows| - 1;
      KeyRows(df, key, rows[..n], k) + if key(df[rows[n]].price) == k then [rows[n]] else []
  }

  lemma {:induction false} KeyRowsDistinct(df: seq<Bid>, key: real -> real, rows: seq<nat>, k: real)
    requires InRange(rows, |df|) && Distinct(rows)
    ensures Distinct(KeyRows(df, key, rows, k))
  {
    if rows != [] {
      var n := |rows| - 1;
      var prev := KeyRows(df, key, rows[..n], k);
      assert Distinct(rows[..n]) by {
        forall i, j | 0 <= i < j < n ensures rows[..n][i] != rows[..n][j] {
          assert rows[..n][i] == rows[i] && rows[..n][j] == rows[j];
        }
      }
      KeyRowsDistinct(df, key, rows[..n], k);
      assert rows[n] !in rows[..n] by {
        forall i | 0 <= i < n ensures rows[..n][i] != rows[n] {
          assert rows[..n][i] == rows[i];
        }
      }
      var r := KeyRows(df, key, rows, k);
      forall i, j | 0 <= i < j < |r| ensures r[i] != r[j] {
        assert r[i] == prev[i] && prev[i] in rows[..n];
        if j < |prev| {
          assert r[j] == prev[j];
        }
      }
    }
  }

  /** The labels among `rows` whose rounded price is not `k`, in order. */
  function OtherRows(df: seq<Bid>, key: real -> real, rows: seq<nat>, k: real): (r: seq<nat>)
    requires InRange(rows, |df|)
    ensures InRange(r, |df|)
    ensures forall j :: 0 <= j < |r| ==> r[j] in rows && key(df[r[j]].price) != k
  {
    if rows == [] then []
    else
      var n := |rows| - 1;
      OtherRows(df, key, rows[..n], k) + if key(df[rows[n]].price) != k then [rows[n]] else []
  }

  lemma {:induction false} KeyRowsComplete(df: seq<Bid>, key: real -> real, rows: seq<nat>, k: real, r: nat)
    requires InRange(rows, |df|) && r in rows && key(df[r].price) == k
    ensures r in KeyRows(df, key, rows, k)
  {
    var n := |rows| - 1;
    if rows[n] != r {
      assert r in rows[..n] by {
        var i :| 0 <= i < |rows| && rows[i] == r;
        assert rows[..n][i] == r;
      }
      KeyRowsComplete(df, key, rows[..n], k, r);
    }
  }

  /** The rounded prices of `rows`, in order. */
  function RowKeys(df: seq<Bid>, key: real -> real, rows: seq<nat>): (ks: seq<real>)
    requires InRange(rows, |df|)
    ensures |ks| == |rows|
  {
    seq(|rows|, j requires 0 <= j < |rows| => key(df[rows[j]].price))
  }

  predicate StrictlyIncreasing(ks: seq<real>) {
    forall i, j :: 0 <= i < j < |ks| ==> ks[i] < ks[j]
  }

  /** Inserts `k` into an ascending run of distinct keys unless already there. */
  function InsertKey(k: real, ks: seq<real>): (r: seq<real>)
  {
    if ks == [] then [k]
    else if k < ks[0] then [k] + ks
    else if k == ks[0] then ks
    else [ks[0]] + InsertKey(k, ks[1..])
  }

  lemma {:induction false} InsertKeySpec(k: real, ks: seq<real>)
    requires StrictlyIncreasing(ks)
    ensures StrictlyIncreasing(InsertKey(k, ks))
    ensures forall x :: x in InsertKey(k, ks) <==> x in ks || x == k
    ensures InsertKey(k, ks) != [] && (InsertKey(k, ks)[0] == k || InsertKey(k, ks)[0] == ks[0])
  {
    if ks != [] && k > ks[0] {
      var t := InsertKey(k, ks[1..]);
      InsertKeySpec(k, ks[1..]);
      assert ks == [ks[0]] + ks[1..];
      var r := [ks[0]] + t;
      forall i, j | 0 <= i < j < |r| ensures r[i] < r[j] {
        if i == 0 && j > 1 {
          assert r[j] in t;
          assert r[j] == k || r[j] in ks[1..];
        }
      }
    }
  }

  /** The distinct keys of `ks` in ascending order: the group keys of `groupby`. */
  function SortedKeys(ks: seq<real>): (r: seq<real>)
  {
    if ks == [] then []
    else
      var n := |ks| - 1;
      InsertKey(ks[n], SortedKeys(ks[..n]))
  }

  lemma {:induction false} SortedKeysSpec(ks: seq<real>)
    ensures StrictlyIncreasing(SortedKeys(ks))
    ensures forall x :: x in SortedKeys(ks) <==> x in ks
  {
    if ks != [] {
      var n := |ks| - 1;
      SortedKeysSpec(ks[..n]);
      InsertKeySpec(ks[n], SortedKeys(ks[..n]));
      assert ks == ks[..n] + [ks[n]];
    }
  }

  /** One group: its rounded price and the labels of its bids, in batch order. */
  datatype Group = Group(price: real, rows: seq<nat>)

  /**
   * Lines 53-56: one side grouped by rounded price, groups by ascending
   * key, each group's labels in batch order.
   */
  function SideGroups(df: seq<Bid>, key: real -> real, buying: bool): (gs: seq<Group>)
    ensures forall i :: 0 <= i < |gs| ==> InRange(gs[i].rows, |df|)
  {
    var rows := SideRows(df, buying, |df|);
    var ks := SortedKeys(RowKeys(df, key, rows));
    seq(|ks|, i requires 0 <= i < |ks| => Group(ks[i], KeyRows(df, key, rows, ks[i])))
  }

  /** Line 68: the buy groups, then the sell groups. */
  function AllGroups(df: seq<Bid>, key: real -> real): (gs: seq<Group>)
    ensures forall i :: 0 <= i < |gs| ==> InRange(gs[i].rows, |df|)
  {
    SideGroups(df, key, true) + SideGroups(df, key, false)
  }

  lemma {:induction false} KeyRowsSide(df: seq<Bid>, key: real -> real, rows: seq<nat>, k: real, buying: bool)
    requires InRange(rows, |df|)
    requires forall j :: 0 <= j < |rows| ==> df[rows[j]].buying == buying
    ensures forall j :: 0 <= j < |KeyRows(df, key, rows, k)| ==> df[KeyRows(df, key, rows, k)[j]].buying == buying
  {
    if rows != [] {
      KeyRowsSide(df, key, rows[..|rows| - 1], k, buying);
    }
  }

  /** Groups are in ascending price order and hold only bids of their side at their price. */
  lemma SideGroupsShape(df: seq<Bid>, key: real -> real, buying: bool)
    ensures var gs := SideGroups(df, key, buying);
      && (forall i, j :: 0 <= i < j < |gs| ==> gs[i].price < gs[j].price)
      && (forall i, m :: 0 <= i < |gs| && 0 <= m < |gs[i].rows| ==>
            df[gs[i].rows[m]].buying == buying && key(df[gs[i].rows[m]].price) == gs[i].price)
  {
    var rows := SideRows(df, buying, |df|);
    SortedKeysSpec(RowKeys(df, key, rows));
    var gs := SideGroups(df, key, buying);
    forall i | 0 <= i < |gs|
      ensures forall m :: 0 <= m < |gs[i].rows| ==> df[gs[i].rows[m]].buying == buying
    {
      KeyRowsSide(df, key, rows, gs[i].price, buying);
    }
  }

  /** No group is empty. */
  lemma SideGroupsNonEmpty(df: seq<Bid>, key: real -> real, buying: bool)
    ensures Populated(SideGroups(df, key, buying), |df|)
  {
    var rows := SideRows(df, buying, |df|);
    var keys := RowKeys(df, key, rows);
    var ks := SortedKeys(keys);
    SortedKeysSpec(keys);
    var gs := SideGroups(df, key, buying);
    forall i | 0 <= i < |gs| ensures gs[i].rows != [] {
      assert ks[i] in keys;
      var j :| 0 <= j < |keys| && keys[j] == ks[i];
      KeyRowsComplete(df, key, rows, ks[i], rows[j]);
    }
  }

  /** Every bid of the side lies in the group of its rounded price. */
  lemma SideGroupsCover(df: seq<Bid>, key: real -> real, buying: bool, r: nat)
    requires r < |df| && df[r].buying == buying
    ensures var gs := SideGroups(df, key, buying);
      exists i :: 0 <= i < |gs| && gs[i].price == key(df[r].price) && r in gs[i].rows
  {
    var rows := SideRows(df, buying, |df|);
    var keys := RowKeys(df, key, rows);
    var ks := SortedKeys(keys);
    SortedKeysSpec(keys);
    SideRowsComplete(df, buying, |df|, r);
    var j :| 0 <= j < |rows| && rows[j] == r;
    assert keys[j] in keys;
    var i :| 0 <= i < |ks| && ks[i] == keys[j];
    KeyRowsComplete(df, key, rows, ks[i], r);
    var gs := SideGroups(df, key, buying);
    assert gs[i].price == key(df[r].price) && r in gs[i].rows;
  }

  // ---------------------------------------------------------------------------
  // Quantities
  // ---------------------------------------------------------------------------

  /** The quantities of `rows`, in order. */
  function BidQuantities(df: seq<Bid>, rows: seq<nat>): (qs: seq<real>)
    requires InRange(rows, |df|)
    ensures |qs| == |rows|
  {
    seq(|rows|, k requires 0 <= k < |rows| => df[rows[k]].quantity)
  }

  /** `sum` of the quantities of `rows`, from the left. */
  function RowsQty(df: seq<Bid>, rows: seq<nat>): real
    requires InRange(rows, |df|)
  {
    Seqs.Sum(BidQuantities(df, rows))
  }

  lemma RowsQtyLast(df: seq<Bid>, rows: seq<nat>)
    requires InRange(rows, |df|) && rows != []
    ensures RowsQty(df, rows) == RowsQty(df, rows[..|rows| - 1]) + df[rows[|rows| - 1]].quantity
  {
    var n := |rows| - 1;
    assert BidQuantities(df, rows)[..n] == BidQuantities(df, rows[..n]);
  }

  lemma RowsQtySnoc(df: seq<Bid>, rows: seq<nat>, r: nat)
    requires InRange(rows, |df|) && r < |df|
    ensures InRange(rows + [r], |df|)
    ensures RowsQty(df, rows + [r]) == RowsQty(df, rows) + df[r].quantity
  {
    RowsQtyLast(df, rows + [r]);
    assert (rows + [r])[..|rows|] == rows;
  }

  /** Splitting rows by one key keeps their total quantity. */
  lemma {:induction false} SplitQty(df: seq<Bid>, key: real -> real, rows: seq<nat>, k: real)
    requires InRange(rows, |df|)
    ensures RowsQty(df, rows) == RowsQty(df, KeyRows(df, key, rows, k)) + RowsQty(df, OtherRows(df, key, rows, k))
  {
    if rows != [] {
      var n := |rows| - 1;
      var last := rows[n];
      var keyed, others := KeyRows(df, key, rows[..n], k), OtherRows(df, key, rows[..n], k);
      assert RowsQty(df, rows[..n]) == RowsQty(df, keyed) + RowsQty(df, others) by {
        SplitQty(df, key, rows[..n], k);
      }
      assert RowsQty(df, rows) == RowsQty(df, rows[..n]) + df[last].quantity by {
        RowsQtyLast(df, rows);
      }
      if key(df[last].price) == k {
        assert KeyRows(df, key, rows, k) == keyed + [last];
        assert OtherRows(df, key, rows, k) == others;
        RowsQtySnoc(df, keyed, last);
      } else {
        assert OtherRows(df, key, rows, k) == others + [last];
        assert KeyRows(df, key, rows, k) == keyed;
        RowsQtySnoc(df, others, last);
      }
    }
  }

  /** Dropping the rows of another key does not change the rows of `k`. */
  lemma {:induction false} KeyRowsOther(df: seq<Bid>, key: real -> real, rows: seq<nat>, k0: real, k: real)
    requires InRange(rows, |df|) && k != k0
    ensures KeyRows(df, key, OtherRows(df, key, rows, k0), k) == KeyRows(df, key, rows, k)
  {
    if rows != [] {
      var n := |rows| - 1;
      KeyRowsOther(df, key, rows[..n], k0, k);
      var others := OtherRows(df, key, rows[..n], k0);
      if key(df[rows[n]].price) != k0 {
        assert (others + [rows[n]])[..|others|] == others;
      } else {
        assert others + [] == others;
      }
    }
  }

  /** The group quantities for the keys `ks`, summed in order. */
  function KeysQty(df: seq<Bid>, key: real -> real, rows: seq<nat>, ks: seq<real>): real
    requires InRange(rows, |df|)
  {
    if ks == [] then 0.0
    else RowsQty(df, KeyRows(df, key, rows, ks[0])) + KeysQty(df, key, rows, ks[1..])
  }

  lemma {:induction false} KeysQtyOther(df: seq<Bid>, key: real -> real, rows: seq<nat>, k0: real, ks: seq<real>)
    requires InRange(rows, |df|) && k0 !in ks
    ensures KeysQty(df, key, OtherRows(df, key, rows, k0), ks) == KeysQty(df, key, rows, ks)
  {
    if ks != [] {
      KeyRowsOther(df, key, rows, k0, ks[0]);
      KeysQtyOther(df, key, rows, k0, ks[1..]);
    }
  }

  /** Distinct keys covering every row: the groups' quantities add up to the rows' total. */
  lemma {:induction false} KeysQtyTotal(df: seq<Bid>, key: real -> real, rows: seq<nat>, ks: seq<real>)
    requires InRange(rows, |df|) && StrictlyIncreasing(ks)
    requires forall j :: 0 <= j < |rows| ==> key(df[rows[j]].price) in ks
    ensures KeysQty(df, key, rows, ks) == RowsQty(df, rows)
    decreases ks
  {
    if ks == [] {
      assert rows == [];
    } else {
      var others := OtherRows(df, key, rows, ks[0]);
      SplitQty(df, key, rows, ks[0]);
      forall j | 0 <= j < |others| ensures key(df[others[j]].price) in ks[1..] {
        assert key(df[others[j]].price) in ks;
      }
      KeysQtyTotal(df, key, others, ks[1..]);
      assert ks[0] !in ks[1..];
      KeysQtyOther(df, key, rows, ks[0], ks[1..]);
    }
  }

  /** The merged bids of one side together hold the side's whole quantity. */
  lemma SideQuantity(df: seq<Bid>, key: real -> real, buying: bool)
    ensures var rows := SideRows(df, buying, |df|);
      KeysQty(df, key, rows, SortedKeys(RowKeys(df, key, rows))) == RowsQty(df, rows)
  {
    var rows := SideRows(df, buying, |df|);
    var keys := RowKeys(df, key, rows);
    SortedKeysSpec(keys);
    forall j | 0 <= j < |rows| ensures key(df[rows[j]].price) in SortedKeys(keys) {
      assert keys[j] == key(df[rows[j]].price) && keys[j] in keys;
    }
    KeysQtyTotal(df, key, rows, SortedKeys(keys));
  }

  // ---------------------------------------------------------------------------
  // Ids and merged rows
  // ---------------------------------------------------------------------------

  predicate Populated(gs: seq<Group>, n: nat) {
    forall i :: 0 <= i < |gs| ==> gs[i].rows != [] && InRange(gs[i].rows, n)
  }

  /** The user ids of a group's bids. */
  function Users(df: seq<Bid>, g: Group): (us: seq<int>)
    requires InRange(g.rows, |df|)
    ensures |us| == |g.rows|
  {
    seq(|g.rows|, m requires 0 <= m < |g.rows| => df[g.rows[m]].user)
  }

  /** The ids `assign_id` gives the groups in turn from `next`, and the counter afterwards. */
  function NewIds(df: seq<Bid>, gs: seq<Group>, next: int): (r: (seq<int>, int))
    requires Populated(gs, |df|)
    ensures |r.0| == |gs|
  {
    if gs == [] then ([], next)
    else
      var n := |gs| - 1;
      var before := NewIds(df, gs[..n], next);
      if |gs[n].rows| > 1 then (before.0 + [before.1], before.1 + 1)
      else (before.0 + [df[gs[n].rows[0]].user], before.1)
  }

  /** The number of groups of several bids. */
  function Multi(gs: seq<Group>): nat {
    if gs == [] then 0 else Multi(gs[..|gs| - 1]) + if |gs[|gs| - 1].rows| > 1 then 1 else 0
  }

  /**
   * Lines 14-21, 58-59: a singleton group keeps its user's id; the groups
   * of several bids get consecutive ids from `next`, in group order.
   */
  lemma {:induction false} NewIdsSpec(df: seq<Bid>, gs: seq<Group>, next: int)
    requires Populated(gs, |df|)
    ensures NewIds(df, gs, next).1 == next + Multi(gs)
    ensures forall i :: 0 <= i < |gs| && |gs[i].rows| == 1 ==> NewIds(df, gs, next).0[i] == df[gs[i].rows[0]].user
    ensures forall i :: 0 <= i < |gs| && |gs[i].rows| > 1 ==> NewIds(df, gs, next).0[i] == next + Multi(gs[..i])
  {
    if gs != [] {
      var n := |gs| - 1;
      var pre := gs[..n];
      assert Populated(pre, |df|) by {
        assert forall i :: 0 <= i < n ==> pre[i] == gs[i];
      }
      var before, r := NewIds(df, pre, next), NewIds(df, gs, next);
      NewIdsSpec(df, pre, next);
      assert Multi(gs) == Multi(pre) + if |gs[n].rows| > 1 then 1 else 0;
      assert r.0 == before.0 + [if |gs[n].rows| > 1 then before.1 else df[gs[n].rows[0]].user];
      forall i | 0 <= i < |gs|
        ensures |gs[i].rows| == 1 ==> r.0[i] == df[gs[i].rows[0]].user
        ensures |gs[i].rows| > 1 ==> r.0[i] == next + Multi(gs[..i])
      {
        if i < n {
          assert pre[i] == gs[i] && pre[..i] == gs[..i];
          assert r.0[i] == before.0[i];
        } else {
          assert gs[..i] == pre;
        }
      }
    }
  }

  lemma {:induction false} MultiMonotone(gs: seq<Group>, i: nat, j: nat)
    requires i <= j <= |gs|
    ensures Multi(gs[..i]) <= Multi(gs[..j])
    ensures i < j && |gs[i].rows| > 1 ==> Multi(gs[..i]) < Multi(gs[..j])
    decreases j
  {
    if i < j {
      MultiMonotone(gs, i, j - 1);
      assert gs[..j][..j - 1] == gs[..j - 1];
    }
  }

  /**
   * New ids never clash: each merged group's id is at least `next`, so above
   * every original id when `next` is, and two merged groups get different ids.
   */
  lemma FreshIds(df: seq<Bid>, gs: seq<Group>, next: int)
    requires Populated(gs, |df|)
    ensures forall i :: 0 <= i < |gs| && |gs[i].rows| > 1 ==> NewIds(df, gs, next).0[i] >= next
    ensures forall i, j :: 0 <= i < j < |gs| && |gs[i].rows| > 1 && |gs[j].rows| > 1 ==>
      NewIds(df, gs, next).0[i] < NewIds(df, gs, next).0[j]
  {
    NewIdsSpec(df, gs, next);
    forall i, j | 0 <= i < j < |gs| && |gs[i].rows| > 1 && |gs[j].rows| > 1
      ensures Multi(gs[..i]) < Multi(gs[..j])
    {
      MultiMonotone(gs, i, j);
    }
  }

  /**
   * `df.user.max() + 1`: one more than the largest user id, whatever its
   * sign; an empty batch assigns no id, so its start is immaterial.
   */
  function StartId(df: seq<Bid>): (start: int)
    ensures forall r :: 0 <= r < |df| ==> df[r].user < start
    ensures df != [] ==> exists r :: 0 <= r < |df| && start == df[r].user + 1
  {
    if df == [] then 0
    else if |df| == 1 then df[0].user + 1
    else
      var rest := StartId(df[..|df| - 1]);
      assert forall r :: 0 <= r < |df| - 1 ==> df[..|df| - 1][r] == df[r];
      if df[|df| - 1].user + 1 > rest then df[|df| - 1].user + 1 else rest
  }

  /**
   * Which member supplies `buying`, `time` and `divisible`: the first
   * (lines 48-50), or a sampled one (the legacy `x.sample(1)`), drawn for
   * group `k` and field `f` from the stream `draw`.
   */
  datatype Pick = First | Sampled(draw: nat -> nat)

  function Member(g: Group, pick: Pick, k: nat, f: nat): (r: nat)
    requires g.rows != []
    ensures r in g.rows
  {
    match pick
    case First => g.rows[0]
    case Sampled(draw) => g.rows[draw(3 * k + f) % |g.rows|]
  }

  /** The merged bid of group `k`: its id, rounded price, total quantity and a member's other fields. */
  function MergedRow(df: seq<Bid>, g: Group, user: int, pick: Pick, k: nat): (b: Bid)
    requires g.rows != [] && InRange(g.rows, |df|)
    ensures b.user == user && b.price == g.price && b.quantity == RowsQty(df, g.rows)
  {
    Bid(user, g.price, RowsQty(df, g.rows), df[Member(g, pick, k, 0)].buying,
        df[Member(g, pick, k, 1)].time, df[Member(g, pick, k, 2)].divisible)
  }

  /** The merged bids of groups `gs` given their ids, the first at table position `offset`. */
  function TableRows(df: seq<Bid>, gs: seq<Group>, ids: seq<int>, pick: Pick, offset: nat): (t: seq<Bid>)
    requires Populated(gs, |df|) && |ids| == |gs|
    ensures |t| == |gs|
    ensures forall k :: 0 <= k < |gs| ==> t[k].user == ids[k] && t[k].price == gs[k].price && t[k].quantity == RowsQty(df, gs[k].rows)
  {
    seq(|gs|, k requires 0 <= k < |gs| => MergedRow(df, gs[k], ids[k], pick, offset + k))
  }

  lemma TableRowsConcat(df: seq<Bid>, a: seq<Group>, b: seq<Group>, ia: seq<int>, ib: seq<int>, pick: Pick)
    requires Populated(a, |df|) && Populated(b, |df|) && |ia| == |a| && |ib| == |b|
    ensures Populated(a + b, |df|)
    ensures TableRows(df, a + b, ia + ib, pick, 0) == TableRows(df, a, ia, pick, 0) + TableRows(df, b, ib, pick, |a|)
  {
    var l, r := TableRows(df, a + b, ia + ib, pick, 0), TableRows(df, a, ia, pick, 0) + TableRows(df, b, ib, pick, |a|);
    forall k | 0 <= k < |l| ensures l[k] == r[k] {
      if k >= |a| {
        assert (a + b)[k] == b[k - |a|] && (ia + ib)[k] == ib[k - |a|];
      }
    }
  }

  lemma TableRowsSnoc(df: seq<Bid>, gs: seq<Group>, ids: seq<int>, pick: Pick, offset: nat, k: nat, user: int)
    requires Populated(gs, |df|) && k < |gs| && |ids| == k
    requires Populated(gs[..k], |df|) && Populated(gs[..k + 1], |df|)
    ensures TableRows(df, gs[..k + 1], ids + [user], pick, offset) ==
      TableRows(df, gs[..k], ids, pick, offset) + [MergedRow(df, gs[k], user, pick, offset + k)]
  {
    var l := TableRows(df, gs[..k + 1], ids + [user], pick, offset);
    var r := TableRows(df, gs[..k], ids, pick, offset) + [MergedRow(df, gs[k], user, pick, offset + k)];
    forall j | 0 <= j < |l| ensures l[j] == r[j] {
      assert gs[..k + 1][j] == gs[j];
      if j < k {
        assert gs[..k][j] == gs[j] && (ids + [user])[j] == ids[j];
      }
    }
  }

  /** `NewIds` over one more group, from the ids and counter so far and what `assign_id` gave it. */
  lemma NewIdsNext(df: seq<Bid>, gs: seq<Group>, k: nat, start: int, ids: seq<int>, index: int, user: int, index1: int)
    requires Populated(gs, |df|) && k < |gs|
    requires Populated(gs[..k], |df|) && Populated(gs[..k + 1], |df|)
    requires (ids, index) == NewIds(df, gs[..k], start)
    requires |gs[k].rows| > 1 ==> user == index && index1 == index + 1
    requires |gs[k].rows| == 1 ==> user == Users(df, gs[k])[0] && index1 == index
    ensures (ids + [user], index1) == NewIds(df, gs[..k + 1], start)
  {
    assert gs[..k + 1][..k] == gs[..k] && gs[..k + 1][k] == gs[k];
  }

  /** The merged table: one row per group, buy groups first, ids counted from `StartId`. */
  function MergedTable(df: seq<Bid>, key: real -> real, pick: Pick): (t: seq<Bid>)
    ensures |t| == |AllGroups(df, key)|
    ensures forall j :: 0 <= j < |t| ==>
      t[j].price == AllGroups(df, key)[j].price && t[j].quantity == RowsQty(df, AllGroups(df, key)[j].rows)
  {
    var gs := AllGroups(df, key);
    SideGroupsNonEmpty(df, key, true);
    SideGroupsNonEmpty(df, key, false);
    assert Populated(gs, |df|);
    TableRows(df, gs, NewIds(df, gs, StartId(df)).0, pick, 0)
  }

  lemma PopulatedConcat(a: seq<Group>, b: seq<Group>, n: nat)
    requires Populated(a, n) && Populated(b, n)
    ensures Populated(a + b, n)
  {
    var ab := a + b;
    forall i | 0 <= i < |ab| ensures ab[i].rows != [] && InRange(ab[i].rows, n) {
      if i < |a| {
        assert ab[i] == a[i];
      } else {
        assert ab[i] == b[i - |a|];
      }
    }
  }

  lemma PopulatedPrefix(gs: seq<Group>, n: nat, k: nat)
    requires Populated(gs, n) && k <= |gs|
    ensures Populated(gs[..k], n)
  {
    forall i | 0 <= i < k ensures gs[..k][i].rows != [] && InRange(gs[..k][i].rows, n) {
      assert gs[..k][i] == gs[i];
    }
  }

  lemma {:induction false} NewIdsConcat(df: seq<Bid>, a: seq<Group>, b: seq<Group>, next: int)
    requires Populated(a, |df|) && Populated(b, |df|)
    ensures Populated(a + b, |df|)
    ensures NewIds(df, a + b, next) ==
      (NewIds(df, a, next).0 + NewIds(df, b, NewIds(df, a, next).1).0, NewIds(df, b, NewIds(df, a, next).1).1)
  {
    PopulatedConcat(a, b, |df|);
    var before := NewIds(df, a, next);
    if b == [] {
      assert a + b == a;
      assert before.0 + [] == before.0;
    } else {
      var n := |b| - 1;
      var ab := a + b;
      PopulatedPrefix(b, |df|, n);
      var mid := NewIds(df, b[..n], before.1);
      assert ab[..|ab| - 1] == a + b[..n];
      assert ab[|ab| - 1] == b[n];
      ghost var prev := NewIds(df, a + b[..n], next);
      assert prev.0 == before.0 + mid.0 && prev.1 == mid.1 by {
        NewIdsConcat(df, a, b[..n], next);
      }
      var whole, tail := NewIds(df, ab, next), NewIds(df, b, before.1);
      if |b[n].rows| > 1 {
        assert whole == (prev.0 + [prev.1], prev.1 + 1);
        assert tail == (mid.0 + [mid.1], mid.1 + 1);
        assert before.0 + (mid.0 + [mid.1]) == (before.0 + mid.0) + [mid.1];
      } else {
        var u := df[b[n].rows[0]].user;
        assert whole == (prev.0 + [u], prev.1);
        assert tail == (mid.0 + [u], mid.1);
        assert before.0 + (mid.0 + [u]) == (before.0 + mid.0) + [u];
      }
    }
  }

  // ---------------------------------------------------------------------------
  // The merge
  // ---------------------------------------------------------------------------

  /**
   * One side of the merge (lines 58-59, legacy 120-121): `assign_id` applied
   * to the groups in turn, and the merged bids built; `offset` is the
   * side's first position in the merged table.
   */
  method MergeSide(gen: IdGenerator, df: seq<Bid>, gs: seq<Group>, pick: Pick, offset: nat)
    returns (rows: seq<Bid>, ghost ids: seq<int>)
    requires Populated(gs, |df|)
    modifies gen
    ensures (ids, gen.index) == NewIds(df, gs, old(gen.index))
    ensures rows == TableRows(df, gs, ids, pick, offset)
  {
    ghost var start := gen.index;
    rows, ids := [], [];
    PopulatedPrefix(gs, |df|, 0);
    for k := 0 to |gs|
      invariant Populated(gs[..k], |df|)
      invariant (ids, gen.index) == NewIds(df, gs[..k], start)
      invariant rows == TableRows(df, gs[..k], ids, pick, offset)
    {
      PopulatedPrefix(gs, |df|, k + 1);
      ghost var index := gen.index;
      var user := gen.AssignId(Users(df, gs[k]));
      NewIdsNext(df, gs, k, start, ids, index, user, gen.index);
      TableRowsSnoc(df, gs, ids, pick, offset, k, user);
      rows := rows + [MergedRow(df, gs[k], user, pick, offset + k)];
      ids := ids + [user];
    }
    assert gs[..|gs|] == gs;
  }

  /** The merged table built side by side: buy groups, then sell groups, one id counter from `StartId`. */
  method MergeTable(gen: IdGenerator, df: seq<Bid>, key: real -> real, pick: Pick) returns (merged: seq<Bid>)
    modifies gen
    ensures merged == MergedTable(df, key, pick)
    ensures gen.index == StartId(df) + Multi(AllGroups(df, key))
  {
    gen.NewPlayerId(StartId(df));
    var buys, sells := SideGroups(df, key, true), SideGroups(df, key, false);
    SideGroupsNonEmpty(df, key, true);
    SideGroupsNonEmpty(df, key, false);
    var buyRows, buyIds := MergeSide(gen, df, buys, pick, 0);
    var sellRows, sellIds := MergeSide(gen, df, sells, pick, |buys|);
    merged := buyRows + sellRows;
    NewIdsConcat(df, buys, sells, StartId(df));
    NewIdsSpec(df, buys + sells, StartId(df));
    TableRowsConcat(df, buys, sells, buyIds, sellIds, pick);
  }

  /** `for i, g in enumerate(gs): m[i] = g.rows`. */
  function Enumerate(m: map<nat, seq<nat>>, gs: seq<Group>): (r: map<nat, seq<nat>>)
    ensures forall i: nat :: i in r <==> i in m || i < |gs|
    ensures forall i :: 0 <= i < |gs| ==> r[i] == gs[i].rows
    ensures forall i :: i in m && i >= |gs| ==> r[i] == m[i]
  {
    if gs == [] then m
    else
      var n := |gs| - 1;
      Enumerate(m, gs[..n])[n := gs[n].rows]
  }

  /** Lines 62-63: the labels enumerated into `bid_mapping` one side at a time. */
  method EnumerateGroups(m: map<nat, seq<nat>>, gs: seq<Group>) returns (r: map<nat, seq<nat>>)
    ensures r == Enumerate(m, gs)
  {
    r := m;
    for i := 0 to |gs|
      invariant r == Enumerate(m, gs[..i])
    {
      assert gs[..i + 1][..i] == gs[..i];
      r := r[i := gs[i].rows];
    }
    assert gs[..|gs|] == gs;
  }

  /** The mapping `merge_same_price` returns, as written. */
  function PerSideMapping(df: seq<Bid>, key: real -> real): map<nat, seq<nat>> {
    Enumerate(Enumerate(map[], SideGroups(df, key, true)), SideGroups(df, key, false))
  }

  /**
   * `merge_same_price` (lines 26-73): the merged table, buy groups first,
   * with the first member's `buying`, `time` and `divisible`, and the
   * per-side `bid_mapping`.
   */
  method MergeSamePrice(gen: IdGenerator, df: seq<Bid>, key: real -> real) returns (merged: seq<Bid>, mapping: map<nat, seq<nat>>)
    modifies gen
    ensures merged == MergedTable(df, key, First)
    ensures mapping == PerSideMapping(df, key)
    ensures gen.index == StartId(df) + Multi(AllGroups(df, key))
  {
    merged := MergeTable(gen, df, key, First);
    mapping := map[];
    mapping := EnumerateGroups(mapping, SideGroups(df, key, true));
    mapping := EnumerateGroups(mapping, SideGroups(df, key, false));
  }

  /**
   * The mapping as written: position `i` holds the sell group `i` when
   * there is one, else the buy group `i`, so it has only as many entries
   * as the larger side while the table has a row per group.
   */
  lemma PerSideOverwrite(df: seq<Bid>, key: real -> real)
    ensures var buys, sells := SideGroups(df, key, true), SideGroups(df, key, false);
      var m := PerSideMapping(df, key);
      && (forall i: nat :: i in m <==> i < |buys| || i < |sells|)
      && (forall i :: 0 <= i < |sells| ==> m[i] == sells[i].rows)
      && (forall i :: |sells| <= i < |buys| ==> m[i] == buys[i].rows)
  {
  }

  /** One buy bid at 1.0 and one sell bid at 2.0. */
  function TwoSidedBatch(): seq<Bid> {
    [Bid(1, 1.0, 1.0, true, 0, true), Bid(2, 2.0, 1.0, false, 0, true)]
  }

  lemma TwoSidedBuys(key: real -> real)
    requires key(1.0) == 1.0
    ensures SideGroups(TwoSidedBatch(), key, true) == [Group(1.0, [0])]
  {
    var df := TwoSidedBatch();
    var rows := SideRows(df, true, |df|);
    assert rows == [0] by {
      assert SideRows(df, true, 1) == [0];
    }
    var keys := RowKeys(df, key, rows);
    assert keys == [1.0];
    var ks := SortedKeys(keys);
    assert ks == [1.0] by {
      assert keys[..0] == [] && SortedKeys(keys[..0]) == [];
      assert InsertKey(1.0, []) == [1.0];
    }
    assert KeyRows(df, key, rows, 1.0) == [0] by {
      assert rows[..0] == [];
    }
  }

  lemma TwoSidedSells(key: real -> real)
    requires key(2.0) == 2.0
    ensures SideGroups(TwoSidedBatch(), key, false) == [Group(2.0, [1])]
  {
    var df := TwoSidedBatch();
    var rows := SideRows(df, false, |df|);
    assert rows == [1] by {
      assert SideRows(df, false, 1) == [];
    }
    var keys := RowKeys(df, key, rows);
    assert keys == [2.0];
    var ks := SortedKeys(keys);
    assert ks == [2.0] by {
      assert keys[..0] == [] && SortedKeys(keys[..0]) == [];
      assert InsertKey(2.0, []) == [2.0];
    }
    assert KeyRows(df, key, rows, 2.0) == [1] by {
      assert rows[..0] == [];
    }
  }

  /**
   * With one buy group and one sell group the mapping as written has the
   * single entry 0, holding the seller: the buy bid is mapped from no
   * merged row although merged row 0 is the merged buy bid.
   */
  lemma MappingCollision(key: real -> real)
    requires key(1.0) == 1.0 && key(2.0) == 2.0
    ensures PerSideMapping(TwoSidedBatch(), key) == map[0 := [1]]
    ensures MergedTable(TwoSidedBatch(), key, First)[0].price == 1.0
    ensures TwoSidedBatch()[0].buying && !TwoSidedBatch()[1].buying
  {
    TwoSidedBuys(key);
    TwoSidedSells(key);
    PerSideOverwrite(TwoSidedBatch(), key);
    var m := PerSideMapping(TwoSidedBatch(), key);
    assert m.Keys == {0} by {
      forall i | i in m ensures i == 0 { }
    }
  }

  /** The mapping keyed by merged-table position (legacy line 129, `bid.to_dict()`). */
  function MergedMapping(df: seq<Bid>, key: real -> real): (m: map<nat, seq<nat>>)
    ensures forall j: nat :: j in m <==> j < |AllGroups(df, key)|
    ensures forall j :: j in m ==> m[j] == AllGroups(df, key)[j].rows
  {
    var gs := AllGroups(df, key);
    map j | 0 <= j < |gs| :: gs[j].rows
  }

  /** The group at merged position `j` is the side's group `j`, or sell group `j - |buys|`. */
  lemma AllGroupsAt(df: seq<Bid>, key: real -> real, j: nat)
    requires j < |AllGroups(df, key)|
    ensures var buys, sells := SideGroups(df, key, true), SideGroups(df, key, false);
      AllGroups(df, key)[j] == if j < |buys| then buys[j] else sells[j - |buys|]
  {
  }

  /** Each merged row is on one side and holds only bids of that side at its rounded price. */
  lemma MergedMappingSide(df: seq<Bid>, key: real -> real, j: nat, r: nat)
    requires j in MergedMapping(df, key) && r in MergedMapping(df, key)[j]
    ensures r < |df| && AllGroups(df, key)[j].price == key(df[r].price)
    ensures j < |SideGroups(df, key, true)| <==> df[r].buying
  {
    SideGroupsShape(df, key, true);
    SideGroupsShape(df, key, false);
    AllGroupsAt(df, key, j);
    var g := AllGroups(df, key)[j];
    var q :| 0 <= q < |g.rows| && g.rows[q] == r;
  }

  /** A group lists rows of the batch, each once. */
  lemma GroupRowsDistinct(df: seq<Bid>, key: real -> real, buying: bool, i: nat)
    requires i < |SideGroups(df, key, buying)|
    ensures InRange(SideGroups(df, key, buying)[i].rows, |df|) && Distinct(SideGroups(df, key, buying)[i].rows)
  {
    var rows := SideRows(df, buying, |df|);
    SideRowsDistinct(df, buying, |df|);
    KeyRowsDistinct(df, key, rows, SideGroups(df, key, buying)[i].price);
  }

  /** Every entry of the position-keyed mapping lists rows of the batch, each once. */
  lemma MergedMappingRows(df: seq<Bid>, key: real -> real, j: nat)
    requires j in MergedMapping(df, key)
    ensures InRange(MergedMapping(df, key)[j], |df|) && Distinct(MergedMapping(df, key)[j])
  {
    AllGroupsAt(df, key, j);
    var nb := |SideGroups(df, key, true)|;
    if j < nb {
      GroupRowsDistinct(df, key, true, j);
    } else {
      GroupRowsDistinct(df, key, false, j - nb);
    }
  }

  /** Every entry of the per-side mapping lists rows of the batch, each once. */
  lemma PerSideMappingRows(df: seq<Bid>, key: real -> real, j: nat)
    requires j in PerSideMapping(df, key)
    ensures InRange(PerSideMapping(df, key)[j], |df|) && Distinct(PerSideMapping(df, key)[j])
  {
    PerSideOverwrite(df, key);
    var nb, ns := |SideGroups(df, key, true)|, |SideGroups(df, key, false)|;
    if j < ns {
      GroupRowsDistinct(df, key, false, j);
    } else {
      GroupRowsDistinct(df, key, true, j);
    }
  }

  /** Every bid is mapped from some merged row. */
  lemma MergedMappingCovers(df: seq<Bid>, key: real -> real, r: nat)
    requires r < |df|
    ensures exists j :: j in MergedMapping(df, key) && r in MergedMapping(df, key)[j]
  {
    var buys := SideGroups(df, key, true);
    SideGroupsCover(df, key, df[r].buying, r);
    var side := SideGroups(df, key, df[r].buying);
    var i :| 0 <= i < |side| && side[i].price == key(df[r].price) && r in side[i].rows;
    var j := if df[r].buying then i else |buys| + i;
    AllGroupsAt(df, key, j);
    assert r in MergedMapping(df, key)[j];
  }

  /** No bid is mapped from two merged rows. */
  lemma MergedMappingUnique(df: seq<Bid>, key: real -> real, r: nat, j1: nat, j2: nat)
    requires j1 in MergedMapping(df, key) && r in MergedMapping(df, key)[j1]
    requires j2 in MergedMapping(df, key) && r in MergedMapping(df, key)[j2]
    ensures j1 == j2
  {
    var buys := SideGroups(df, key, true);
    SideGroupsShape(df, key, true);
    SideGroupsShape(df, key, false);
    MergedMappingSide(df, key, j1, r);
    MergedMappingSide(df, key, j2, r);
    AllGroupsAt(df, key, j1);
    AllGroupsAt(df, key, j2);
  }

  /**
   * The position-keyed mapping takes every bid back to exactly one merged
   * row, on its side and at its rounded price, and each merged row holds
   * the quantity of the bids mapped to it.
   */
  lemma MergedMappingPartition(df: seq<Bid>, key: real -> real, pick: Pick, r: nat)
    requires r < |df|
    ensures var m, t := MergedMapping(df, key), MergedTable(df, key, pick);
      && (exists j :: j in m && r in m[j])
      && (forall j :: j in m && r in m[j] ==>
            t[j].price == key(df[r].price) && (j < |SideGroups(df, key, true)| <==> df[r].buying))
      && (forall j1, j2 :: j1 in m && j2 in m && r in m[j1] && r in m[j2] ==> j1 == j2)
      && (forall j :: j in m ==> t[j].quantity == RowsQty(df, m[j]))
  {
    var m := MergedMapping(df, key);
    MergedMappingCovers(df, key, r);
    forall j | j in m && r in m[j]
      ensures AllGroups(df, key)[j].price == key(df[r].price) && (j < |SideGroups(df, key, true)| <==> df[r].buying)
    {
      MergedMappingSide(df, key, j, r);
    }
    forall j1, j2 | j1 in m && j2 in m && r in m[j1] && r in m[j2] ensures j1 == j2 {
      MergedMappingUnique(df, key, r, j1, j2);
    }
  }

  /**
   * The legacy `merge_same_price` (EUnix/EUnix/auctions/process.py:79-140):
   * the same table, `buying`, `time` and `divisible` each from a sampled
   * member, and the mapping keyed by merged-table position.
   */
  method LegacyMergeSamePrice(gen: IdGenerator, df: seq<Bid>, key: real -> real, draw: nat -> nat)
    returns (merged: seq<Bid>, mapping: map<nat, seq<nat>>)
    modifies gen
    ensures merged == MergedTable(df, key, Sampled(draw))
    ensures mapping == MergedMapping(df, key)
    ensures gen.index == StartId(df) + Multi(AllGroups(df, key))
  {
    merged := MergeTable(gen, df, key, Sampled(draw));
    mapping := MergedMapping(df, key);
  }
}
