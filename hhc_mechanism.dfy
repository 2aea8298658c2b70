/**
 * Cluster-based clearing (`hhc_clearing_mechanism`). The batch is laid out
 * as all bids followed by all offers; a cluster label is given for each row
 * of that layout. Within each cluster, in label order, every buyer (highest
 * price first) meets every seller (lowest price first) and trades at the
 * seller's price whenever the prices cross and both sides still hold
 * quantity.
 *
 * As written, a buyer's remaining quantity carries over from seller to
 * seller, but a seller's reduction lands on a per-buyer copy of its row and
 * is lost: every buyer sees each seller at its original quantity. The
 * as-written matcher (`BuyerPass`, `ClusterPass`, `HhcMatches`) keeps this;
 * `KeptBuyerPass`, `KeptClusterPass` and `KeptMatches` carry both reductions,
 * and `HhcClearingKept` is the clearing built on them.
 */
module HhcMechanism {
  import opened Wrappers
  import opened Seqs
  import opened Orders
  import opened Transactions
  import opened DemandCurves

  // ---------------------------------------------------------------------------
  // The batch and its clusters
  // ---------------------------------------------------------------------------

  function Pick(orders: seq<Order>, rows: seq<nat>): (r: seq<Order>)
    requires forall k :: 0 <= k < |rows| ==> rows[k] < |orders|
    ensures |r| == |rows|
  {
    seq(|rows|, k requires 0 <= k < |rows| => orders[rows[k]])
  }

  /** Lines 18-23: the bids, then the offers, relabelled by position. */
  function Market(orders: seq<Order>): (market: seq<Order>)
    ensures |market| == |SideRows(orders, true)| + |SideRows(orders, false)|
  {
    Pick(orders, SideRows(orders, true)) + Pick(orders, SideRows(orders, false))
  }

  /** The layout has one row per order, bids before offers. */
  lemma MarketLayout(orders: seq<Order>)
    ensures |Market(orders)| == |orders|
    ensures forall i, j :: 0 <= i < j < |orders| && !Market(orders)[i].buying ==> !Market(orders)[j].buying
  {
    SideRowsPartition(orders, |orders|);
  }

  /** Rows `0..n-1` of the layout on one side of cluster `c`, in layout order. */
  function ClusterRowsUpTo(market: seq<Order>, labels: seq<nat>, c: nat, buying: bool, n: nat): (rows: seq<nat>)
    requires n <= |market| == |labels|
    ensures forall k :: 0 <= k < |rows| ==>
      rows[k] < n && labels[rows[k]] == c && market[rows[k]].buying == buying
  {
    if n == 0 then []
    else
      var rows := ClusterRowsUpTo(market, labels, c, buying, n - 1);
      if labels[n - 1] == c && market[n - 1].buying == buying then rows + [n - 1] else rows
  }

  /** Every row of the layout with that label and side is selected. */
  lemma {:induction false} ClusterRowsUpToComplete(market: seq<Order>, labels: seq<nat>, c: nat, buying: bool, n: nat, i: nat)
    requires n <= |market| == |labels| && i < n
    requires labels[i] == c && market[i].buying == buying
    ensures i in ClusterRowsUpTo(market, labels, c, buying, n)
  {
    if i < n - 1 {
      ClusterRowsUpToComplete(market, labels, c, buying, n - 1, i);
    }
  }

  /** Line 36: the cluster's bids, highest price first. */
  function ClusterBuyers(market: seq<Order>, labels: seq<nat>, c: nat): (rows: seq<nat>)
    requires |market| == |labels|
  {
    SortBy(NegatedRates(market), ClusterRowsUpTo(market, labels, c, true, |market|))
  }

  /** Line 37: the cluster's offers, lowest price first. */
  function ClusterSellers(market: seq<Order>, labels: seq<nat>, c: nat): (rows: seq<nat>)
    requires |market| == |labels|
  {
    SortBy(Rates(market), ClusterRowsUpTo(market, labels, c, false, |market|))
  }

  /** A row of the layout is a buyer or a seller of cluster `c` exactly when it carries that label and side. */
  lemma ClusterMembers(market: seq<Order>, labels: seq<nat>, c: nat, i: nat)
    requires |market| == |labels| && i < |market|
    ensures i in ClusterBuyers(market, labels, c) <==> labels[i] == c && market[i].buying
    ensures i in ClusterSellers(market, labels, c) <==> labels[i] == c && !market[i].buying
  {
    var n := |market|;
    var bs := ClusterRowsUpTo(market, labels, c, true, n);
    var ss := ClusterRowsUpTo(market, labels, c, false, n);
    SortBySpec(NegatedRates(market), bs);
    SortBySpec(Rates(market), ss);
    assert i in ClusterBuyers(market, labels, c) <==> i in multiset(bs);
    assert i in ClusterSellers(market, labels, c) <==> i in multiset(ss);
    if labels[i] == c {
      if market[i].buying {
        ClusterRowsUpToComplete(market, labels, c, true, n, i);
      } else {
        ClusterRowsUpToComplete(market, labels, c, false, n, i);
      }
    }
  }

  /** Lines 36-37: buyers by non-increasing price, sellers by non-decreasing price. */
  lemma ClusterOrder(market: seq<Order>, labels: seq<nat>, c: nat)
    requires |market| == |labels|
    ensures var bs := ClusterBuyers(market, labels, c);
      forall i, j :: 0 <= i < j < |bs| ==> market[bs[i]].energyRate >= market[bs[j]].energyRate
    ensures var ss := ClusterSellers(market, labels, c);
      forall i, j :: 0 <= i < j < |ss| ==> market[ss[i]].energyRate <= market[ss[j]].energyRate
  {
    var bs := ClusterRowsUpTo(market, labels, c, true, |market|);
    SortBySpec(NegatedRates(market), bs);
    SortBySpec(Rates(market), ClusterRowsUpTo(market, labels, c, false, |market|));
    var sorted := ClusterBuyers(market, labels, c);
    forall i, j | 0 <= i < j < |sorted|
      ensures market[sorted[i]].energyRate >= market[sorted[j]].energyRate
    {
      assert NegatedRates(market)[sorted[i]] <= NegatedRates(market)[sorted[j]];
    }
  }

  // ---------------------------------------------------------------------------
  // Matches and their ledger
  // ---------------------------------------------------------------------------

  /**
   * A trade of `q` between buyer row `b` and seller row `s`; `held` is the
   * buyer's remaining quantity just before it, which its legs report.
   */
  datatype Match = Match(b: nat, s: nat, held: real, q: real)

  predicate MatchesIn(ms: seq<Match>, n: nat) {
    forall k :: 0 <= k < |ms| ==> ms[k].b < n && ms[k].s < n
  }

  /**
   * Lines 41-42: the trade the buyer, holding `held`, makes with seller `s`
   * holding `offered`: both prices cross and both quantities are positive.
   */
  predicate Crosses(market: seq<Order>, b: nat, s: nat, held: real, offered: real)
    requires b < |market| && s < |market|
  {
    market[b].energyRate >= market[s].energyRate && held > 0.0 && offered > 0.0
  }

  /** Lines 45-57: a match's two legs, priced at the seller's rate. */
  function MatchLegs(market: seq<Order>, m: Match, id: nat): (legs: seq<Leg>)
    requires m.b < |market| && m.s < |market|
  {
    TradeLegs(id, market[m.b].(energyQty := m.held), market[m.s], market[m.s].energyRate, m.q)
  }

  /** The ledger of `ms`, two legs per match, ids from `id` on. */
  function Ledger(market: seq<Order>, ms: seq<Match>, id: nat): seq<Leg>
    requires MatchesIn(ms, |market|)
  {
    Flatten(seq(|ms|, k requires 0 <= k < |ms| => MatchLegs(market, ms[k], id + k)))
  }

  /** Matches recorded in two batches give the ledger of all of them, ids running on. */
  lemma LedgerConcat(market: seq<Order>, a: seq<Match>, b: seq<Match>, id: nat)
    requires MatchesIn(a, |market|) && MatchesIn(b, |market|)
    ensures MatchesIn(a + b, |market|)
    ensures Ledger(market, a + b, id) == Ledger(market, a, id) + Ledger(market, b, id + |a|)
  {
    assert MatchesIn(a + b, |market|) by {
      forall k | 0 <= k < |a + b| ensures (a + b)[k] == if k < |a| then a[k] else b[k - |a|] { }
    }
    var la := seq(|a|, k requires 0 <= k < |a| => MatchLegs(market, a[k], id + k));
    var lb := seq(|b|, k requires 0 <= k < |b| => MatchLegs(market, b[k], id + |a| + k));
    assert seq(|a + b|, k requires 0 <= k < |a + b| => MatchLegs(market, (a + b)[k], id + k)) == la + lb;
    FlattenConcat(la, lb);
  }

  /** Legs `2k` and `2k + 1` are match `k`'s buying and selling legs, with the id `id + k`. */
  lemma LedgerAt(market: seq<Order>, ms: seq<Match>, id: nat, k: nat)
    requires MatchesIn(ms, |market|) && k < |ms|
    ensures |Ledger(market, ms, id)| == 2 * |ms|
    ensures Ledger(market, ms, id)[2 * k..2 * k + 2] == MatchLegs(market, ms[k], id + k)
  {
    FlattenPairs(seq(|ms|, j requires 0 <= j < |ms| => MatchLegs(market, ms[j], id + j)), k);
  }

  /** The quantity `o` traded, as buyer or seller, over `ms`. */
  function TradedBy(ms: seq<Match>, o: nat): real {
    if ms == [] then 0.0
    else (if ms[0].b == o || ms[0].s == o then ms[0].q else 0.0) + TradedBy(ms[1..], o)
  }

  lemma {:induction false} TradedByConcat(a: seq<Match>, b: seq<Match>, o: nat)
    ensures TradedBy(a + b, o) == TradedBy(a, o) + TradedBy(b, o)
  {
    if a == [] {
      assert a + b == b;
    } else {
      assert (a + b)[1..] == a[1..] + b;
      TradedByConcat(a[1..], b, o);
    }
  }

  // ---------------------------------------------------------------------------
  // The matcher as written
  // ---------------------------------------------------------------------------

  /**
   * Lines 40-55 for one buyer holding `held`: each seller of `ss` in turn,
   * at the seller's original quantity.
   */
  function BuyerPass(market: seq<Order>, b: nat, held: real, ss: seq<nat>): (ms: seq<Match>)
    requires b < |market| && InRange(ss, |market|)
    decreases |ss|
  {
    if ss == [] then []
    else
      var s := ss[0];
      if Crosses(market, b, s, held, market[s].energyQty) then
        var q := RealMin(held, market[s].energyQty);
        [Match(b, s, held, q)] + BuyerPass(market, b, held - q, ss[1..])
      else BuyerPass(market, b, held, ss[1..])
  }

  /** Lines 39-57 for the buyers `bs` against the sellers `ss`. */
  function ClusterPass(market: seq<Order>, bs: seq<nat>, ss: seq<nat>): (ms: seq<Match>)
    requires InRange(bs, |market|) && InRange(ss, |market|)
  {
    if bs == [] then []
    else
      var n := |bs| - 1;
      ClusterPass(market, bs[..n], ss) + BuyerPass(market, bs[n], market[bs[n]].energyQty, ss)
  }

  /** Lines 34-64: the matches of clusters `0..n-1`, in cluster order. */
  function HhcMatches(market: seq<Order>, labels: seq<nat>, n: nat): (ms: seq<Match>)
    requires |market| == |labels|
  {
    if n == 0 then []
    else
      HhcMatches(market, labels, n - 1) +
      ClusterPass(market, ClusterBuyers(market, labels, n - 1), ClusterSellers(market, labels, n - 1))
  }

  /**
   * A match made by buyer `b` against one of `ss`: the prices cross, the
   * quantity is positive and covered by the buyer's remaining quantity (at
   * most `held`) and by the seller's original quantity, which is all the
   * seller check at line 41 sees.
   */
  predicate BuyerMatch(market: seq<Order>, b: nat, held: real, ss: seq<nat>, m: Match)
    requires b < |market|
  {
    && m.b == b && m.s in ss && m.s < |market|
    && market[b].energyRate >= market[m.s].energyRate
    && 0.0 < m.q <= m.held <= held
    && m.q <= market[m.s].energyQty
  }

  lemma {:induction false} BuyerPassSound(market: seq<Order>, b: nat, held: real, ss: seq<nat>)
    requires b < |market| && InRange(ss, |market|)
    ensures forall m :: m in BuyerPass(market, b, held, ss) ==> BuyerMatch(market, b, held, ss, m)
    decreases |ss|
  {
    if ss != [] {
      var s := ss[0];
      if Crosses(market, b, s, held, market[s].energyQty) {
        var q := RealMin(held, market[s].energyQty);
        BuyerPassSound(market, b, held - q, ss[1..]);
      } else {
        BuyerPassSound(market, b, held, ss[1..]);
      }
    }
  }

  /**
   * Line 54: the buyer's reduction persists, so over one pass the buyer
   * trades exactly what it held less what it keeps, never more than it held.
   */
  lemma {:induction false} BuyerPassConserves(market: seq<Order>, b: nat, held: real, ss: seq<nat>)
    requires b < |market| && InRange(ss, |market|) && held >= 0.0
    requires forall k :: 0 <= k < |ss| ==> ss[k] != b
    ensures 0.0 <= TradedBy(BuyerPass(market, b, held, ss), b) <= held
    decreases |ss|
  {
    if ss != [] {
      var s := ss[0];
      if Crosses(market, b, s, held, market[s].energyQty) {
        var q := RealMin(held, market[s].energyQty);
        BuyerPassConserves(market, b, held - q, ss[1..]);
      } else {
        BuyerPassConserves(market, b, held, ss[1..]);
      }
    }
  }

  /** A buyer with no quantity, or a cluster without sellers, makes no match. */
  lemma {:induction false} BuyerPassIdle(market: seq<Order>, b: nat, held: real, ss: seq<nat>)
    requires b < |market| && InRange(ss, |market|) && (held <= 0.0 || ss == [])
    ensures BuyerPass(market, b, held, ss) == []
    decreases |ss|
  {
    if ss != [] {
      BuyerPassIdle(market, b, held, ss[1..]);
    }
  }

  /** Lines 36-40: a cluster with no buyers or no sellers makes no match. */
  lemma {:induction false} ClusterPassIdle(market: seq<Order>, bs: seq<nat>, ss: seq<nat>)
    requires InRange(bs, |market|) && InRange(ss, |market|) && (bs == [] || ss == [])
    ensures ClusterPass(market, bs, ss) == []
  {
    if bs != [] {
      var n := |bs| - 1;
      ClusterPassIdle(market, bs[..n], ss);
      BuyerPassIdle(market, bs[n], market[bs[n]].energyQty, ss);
    }
  }

  /**
   * Every match of the run pairs a buyer and a seller of the same cluster
   * `c < n`, at crossing prices, for a positive quantity covered by the
   * buyer's remaining quantity and by the seller's original quantity.
   */
  predicate Sound(market: seq<Order>, labels: seq<nat>, n: nat, m: Match)
    requires |market| == |labels|
  {
    && m.b < |market| && m.s < |market|
    && market[m.b].buying && !market[m.s].buying
    && labels[m.b] == labels[m.s] < n
    && market[m.b].energyRate >= market[m.s].energyRate
    && 0.0 < m.q <= m.held
    && m.q <= market[m.s].energyQty
  }

  lemma {:induction false} ClusterPassSound(market: seq<Order>, labels: seq<nat>, c: nat, bs: seq<nat>)
    requires |market| == |labels| && InRange(bs, |market|)
    requires forall k :: 0 <= k < |bs| ==> bs[k] in ClusterBuyers(market, labels, c)
    ensures forall m :: m in ClusterPass(market, bs, ClusterSellers(market, labels, c)) ==> Sound(market, labels, c + 1, m)
  {
    var ss := ClusterSellers(market, labels, c);
    if bs != [] {
      var n := |bs| - 1;
      ClusterPassSound(market, labels, c, bs[..n]);
      var b := bs[n];
      BuyerPassSound(market, b, market[b].energyQty, ss);
      ClusterMembers(market, labels, c, b);
      forall m | m in BuyerPass(market, b, market[b].energyQty, ss)
        ensures Sound(market, labels, c + 1, m)
      {
        ClusterMembers(market, labels, c, m.s);
      }
    }
  }

  /** Soundness for `n0 <= n` clusters carries over to `n`, and to the concatenation of two runs. */
  lemma SoundConcat(market: seq<Order>, labels: seq<nat>, n0: nat, n: nat, before: seq<Match>, last: seq<Match>)
    requires |market| == |labels| && n0 <= n
    requires forall m :: m in before ==> Sound(market, labels, n0, m)
    requires forall m :: m in last ==> Sound(market, labels, n, m)
    ensures forall m :: m in before + last ==> Sound(market, labels, n, m)
  {
    forall m | m in before + last ensures Sound(market, labels, n, m) {
      if m in before {
        assert Sound(market, labels, n0, m);
      }
    }
  }

  /** Lines 34-35, 41-42, 63-64: each match stays within one cluster and satisfies the trade test. */
  lemma {:induction false} HhcMatchesSound(market: seq<Order>, labels: seq<nat>, n: nat)
    requires |market| == |labels|
    ensures forall m :: m in HhcMatches(market, labels, n) ==> Sound(market, labels, n, m)
  {
    if n > 0 {
      var bs, ss := ClusterBuyers(market, labels, n - 1), ClusterSellers(market, labels, n - 1);
      HhcMatchesSound(market, labels, n - 1);
      ClusterPassSound(market, labels, n - 1, bs);
      SoundConcat(market, labels, n - 1, n, HhcMatches(market, labels, n - 1), ClusterPass(market, bs, ss));
    }
  }

  // ---------------------------------------------------------------------------
  // The matcher with both reductions kept
  // ---------------------------------------------------------------------------

  /**
   * One buyer against `ss` when every order's remaining quantity lives in
   * `rem` and both reductions are kept: the new quantities and the matches.
   */
  function KeptBuyerPass(market: seq<Order>, rem: seq<real>, b: nat, ss: seq<nat>): (r: (seq<real>, seq<Match>))
    requires b < |market| == |rem| && InRange(ss, |market|)
    ensures |r.0| == |rem|
    decreases |ss|
  {
    if ss == [] then (rem, [])
    else
      var s := ss[0];
      if Crosses(market, b, s, rem[b], rem[s]) then
        var q := RealMin(rem[b], rem[s]);
        var next := KeptBuyerPass(market, rem[b := rem[b] - q][s := rem[s] - q], b, ss[1..]);
        (next.0, [Match(b, s, rem[b], q)] + next.1)
      else KeptBuyerPass(market, rem, b, ss[1..])
  }

  function KeptClusterPass(market: seq<Order>, rem: seq<real>, bs: seq<nat>, ss: seq<nat>): (r: (seq<real>, seq<Match>))
    requires |market| == |rem| && InRange(bs, |market|) && InRange(ss, |market|)
    ensures |r.0| == |rem|
  {
    if bs == [] then (rem, [])
    else
      var n := |bs| - 1;
      var before := KeptClusterPass(market, rem, bs[..n], ss);
      var last := KeptBuyerPass(market, before.0, bs[n], ss);
      (last.0, before.1 + last.1)
  }

  /** All clusters `0..n-1`, starting from the orders' own quantities. */
  function KeptMatches(market: seq<Order>, labels: seq<nat>, n: nat): (r: (seq<real>, seq<Match>))
    requires |market| == |labels|
    ensures |r.0| == |market|
  {
    if n == 0 then (Quantities(market, seq(|market|, i => i)), [])
    else
      var before := KeptMatches(market, labels, n - 1);
      var last := KeptClusterPass(market, before.0, ClusterBuyers(market, labels, n - 1),
                                  ClusterSellers(market, labels, n - 1));
      (last.0, before.1 + last.1)
  }

  /** Every remaining quantity is non-negative. */
  predicate NonNegative(rem: seq<real>) {
    forall i :: 0 <= i < |rem| ==> rem[i] >= 0.0
  }

  /** What an order keeps plus what it trades is what it had, and it keeps a non-negative amount. */
  predicate Conserved(rem: seq<real>, r: (seq<real>, seq<Match>)) {
    |r.0| == |rem| && NonNegative(r.0) &&
    forall o :: 0 <= o < |rem| ==> r.0[o] + TradedBy(r.1, o) == rem[o]
  }

  lemma {:induction false} KeptBuyerPassConserves(market: seq<Order>, rem: seq<real>, b: nat, ss: seq<nat>)
    requires b < |market| == |rem| && InRange(ss, |market|) && NonNegative(rem)
    requires forall k :: 0 <= k < |ss| ==> ss[k] != b
    ensures Conserved(rem, KeptBuyerPass(market, rem, b, ss))
    decreases |ss|
  {
    if ss != [] {
      var s := ss[0];
      if Crosses(market, b, s, rem[b], rem[s]) {
        var q := RealMin(rem[b], rem[s]);
        var rem' := rem[b := rem[b] - q][s := rem[s] - q];
        KeptBuyerPassConserves(market, rem', b, ss[1..]);
        var ms := [Match(b, s, rem[b], q)] + KeptBuyerPass(market, rem', b, ss[1..]).1;
        assert ms[1..] == KeptBuyerPass(market, rem', b, ss[1..]).1;
      } else {
        KeptBuyerPassConserves(market, rem, b, ss[1..]);
      }
    }
  }

  /** Conservation carries through two passes one after the other. */
  lemma ConservedThen(rem: seq<real>, mid: (seq<real>, seq<Match>), last: (seq<real>, seq<Match>))
    requires Conserved(rem, mid) && Conserved(mid.0, last)
    ensures Conserved(rem, (last.0, mid.1 + last.1))
  {
    forall o | 0 <= o < |rem|
      ensures last.0[o] + TradedBy(mid.1 + last.1, o) == rem[o]
    {
      TradedByConcat(mid.1, last.1, o);
    }
  }

  lemma {:induction false} KeptClusterPassConserves(market: seq<Order>, rem: seq<real>, bs: seq<nat>, ss: seq<nat>)
    requires |market| == |rem| && InRange(bs, |market|) && InRange(ss, |market|) && NonNegative(rem)
    requires forall i, k :: 0 <= i < |bs| && 0 <= k < |ss| ==> bs[i] != ss[k]
    ensures Conserved(rem, KeptClusterPass(market, rem, bs, ss))
  {
    if bs == [] {
      assert TradedBy([], 0) == 0.0;
    } else {
      var n := |bs| - 1;
      KeptClusterPassConserves(market, rem, bs[..n], ss);
      var before := KeptClusterPass(market, rem, bs[..n], ss);
      KeptBuyerPassConserves(market, before.0, bs[n], ss);
      ConservedThen(rem, before, KeptBuyerPass(market, before.0, bs[n], ss));
    }
  }

  /**
   * With both reductions kept and positive quantities, every order keeps a
   * non-negative remainder, and the quantity it trades over the whole run
   * is its own quantity less that remainder, so never more than it offered.
   */
  lemma {:induction false} KeptConserves(market: seq<Order>, labels: seq<nat>, n: nat)
    requires |market| == |labels| && PositiveQuantities(market)
    ensures Conserved(KeptMatches(market, labels, 0).0, KeptMatches(market, labels, n))
    ensures forall o :: 0 <= o < |market| ==> TradedBy(KeptMatches(market, labels, n).1, o) <= market[o].energyQty
  {
    var q0 := KeptMatches(market, labels, 0).0;
    KeptConserved(market, labels, n);
    forall o | 0 <= o < |market|
      ensures TradedBy(KeptMatches(market, labels, n).1, o) <= market[o].energyQty
    {
      assert q0[o] == market[o].energyQty;
    }
  }

  lemma {:induction false} KeptConserved(market: seq<Order>, labels: seq<nat>, n: nat)
    requires |market| == |labels| && PositiveQuantities(market)
    ensures Conserved(KeptMatches(market, labels, 0).0, KeptMatches(market, labels, n))
  {
    if n == 0 {
      KeptStart(market, labels);
    } else {
      KeptConserved(market, labels, n - 1);
      KeptStep(market, labels, n);
    }
  }

  lemma KeptStart(market: seq<Order>, labels: seq<nat>)
    requires |market| == |labels| && PositiveQuantities(market)
    ensures Conserved(KeptMatches(market, labels, 0).0, KeptMatches(market, labels, 0))
  {
    var q0 := KeptMatches(market, labels, 0).0;
    forall o | 0 <= o < |market| ensures q0[o] >= 0.0 && TradedBy([], o) == 0.0 {
      assert q0[o] == market[o].energyQty;
    }
  }

  /** Cluster `n - 1`'s buyers and sellers are disjoint, so its pass keeps conservation. */
  lemma KeptStep(market: seq<Order>, labels: seq<nat>, n: nat)
    requires |market| == |labels| && n > 0
    requires Conserved(KeptMatches(market, labels, 0).0, KeptMatches(market, labels, n - 1))
    ensures Conserved(KeptMatches(market, labels, 0).0, KeptMatches(market, labels, n))
  {
    var c := n - 1;
    var q0 := KeptMatches(market, labels, 0).0;
    var before := KeptMatches(market, labels, c);
    var bs := ClusterBuyers(market, labels, c);
    var ss := ClusterSellers(market, labels, c);
    forall i, k | 0 <= i < |bs| && 0 <= k < |ss| ensures bs[i] != ss[k] {
      ClusterMembers(market, labels, c, bs[i]);
      ClusterMembers(market, labels, c, ss[k]);
    }
    KeptClusterPassConserves(market, before.0, bs, ss);
    ConservedThen(q0, before, KeptClusterPass(market, before.0, bs, ss));
  }

  // ---------------------------------------------------------------------------
  // The seller oversold as written
  // ---------------------------------------------------------------------------

  /** An order of the example batch, blank in every other column. */
  function ExampleOrder(id: string, buying: bool, qty: real, rate: real): (o: Order)
    ensures o.buying == buying && o.energyQty == qty && o.energyRate == rate
  {
    Order("u", "u", "", id, qty, rate, "", "", buying, None, None, 0.0, None, None)
  }

  /** One cluster with two bids of 1 at 5 and one offer of 1 at 1. */
  function ExampleMarket(): (market: seq<Order>)
    ensures |market| == 3
  {
    [ExampleOrder("b0", true, 1.0, 5.0), ExampleOrder("b1", true, 1.0, 5.0), ExampleOrder("s0", false, 1.0, 1.0)]
  }

  lemma ExampleClusters()
    ensures ClusterBuyers(ExampleMarket(), [0, 0, 0], 0) == [0, 1]
    ensures ClusterSellers(ExampleMarket(), [0, 0, 0], 0) == [2]
  {
    var market := ExampleMarket();
    var labels: seq<nat> := [0, 0, 0];
    assert ClusterRowsUpTo(market, labels, 0, true, 3) == [0, 1];
    assert ClusterRowsUpTo(market, labels, 0, false, 3) == [2];
    var keys := NegatedRates(market);
    assert keys[0] == -5.0 && keys[1] == -5.0;
    assert SortBy(keys, [0]) == [0] by {
      assert [0][..0] == [];
    }
    assert Insert(keys, 1, [0]) == [0, 1] by {
      assert [0][1..] == [];
    }
    assert SortBy(keys, [0, 1]) == [0, 1] by {
      assert [0, 1][..1] == [0];
    }
    assert SortBy(Rates(market), [2]) == [2] by {
      assert [2][..0] == [];
    }
  }

  /**
   * Each bid meets the offer at its original quantity, so the offer of 1 is
   * sold twice over.
   */
  lemma SellerOversold()
    ensures TradedBy(HhcMatches(ExampleMarket(), [0, 0, 0], 1), 2) == 2.0 > ExampleMarket()[2].energyQty
  {
    var market := ExampleMarket();
    ExampleClusters();
    var ss := [2];
    assert BuyerPass(market, 0, 1.0, ss) == [Match(0, 2, 1.0, 1.0)];
    assert BuyerPass(market, 1, 1.0, ss) == [Match(1, 2, 1.0, 1.0)];
    assert [0, 1][..1] == [0] && [0][..0] == [];
    assert ClusterPass(market, [0], ss) == [Match(0, 2, 1.0, 1.0)];
    var ms := HhcMatches(market, [0, 0, 0], 1);
    assert ms == [Match(0, 2, 1.0, 1.0), Match(1, 2, 1.0, 1.0)];
    assert ms[1..] == [Match(1, 2, 1.0, 1.0)] && ms[1..][1..] == [];
  }

  lemma KeptExampleFirst(q0: seq<real>)
    requires q0 == [1.0, 1.0, 1.0]
    ensures KeptBuyerPass(ExampleMarket(), q0, 0, [2]) == ([0.0, 1.0, 0.0], [Match(0, 2, 1.0, 1.0)])
  {
    var market := ExampleMarket();
    assert Crosses(market, 0, 2, q0[0], q0[2]);
    var q := RealMin(q0[0], q0[2]);
    assert q == 1.0;
    var rem := q0[0 := q0[0] - q][2 := q0[2] - q];
    assert rem == [0.0, 1.0, 0.0];
    assert [2][1..] == [];
    var rest := KeptBuyerPass(market, rem, 0, []);
    assert rest == (rem, []);
    assert KeptBuyerPass(market, q0, 0, [2]) == (rest.0, [Match(0, 2, q0[0], q)] + rest.1);
    assert [Match(0, 2, q0[0], q)] + rest.1 == [Match(0, 2, 1.0, 1.0)];
  }

  /** With the seller's reduction kept, the same batch sells the offer once. */
  lemma SellerSoldOnce()
    ensures TradedBy(KeptMatches(ExampleMarket(), [0, 0, 0], 1).1, 2) == 1.0
  {
    var market := ExampleMarket();
    var labels: seq<nat> := [0, 0, 0];
    var ss: seq<nat> := [2];
    var q0: seq<real> := [1.0, 1.0, 1.0];
    assert KeptMatches(market, labels, 0) == (q0, []) by {
      KeptInitial(market, labels, q0);
    }
    var after: seq<real> := [0.0, 1.0, 0.0];
    var first := KeptBuyerPass(market, q0, 0, ss);
    assert first == (after, [Match(0, 2, 1.0, 1.0)]) by {
      KeptExampleFirst(q0);
    }
    assert KeptBuyerPass(market, after, 1, ss) == (after, []) by {
      assert !Crosses(market, 1, 2, after[1], after[2]);
      assert ss[1..] == [];
    }
    assert KeptClusterPass(market, q0, [0, 1], ss) == (after, first.1) by {
      assert [0, 1][..1] == [0] && [0][..0] == [];
      assert KeptClusterPass(market, q0, [0], ss) == first by {
        assert [] + first.1 == first.1;
      }
      assert first.1 + [] == first.1;
    }
    var kept := KeptMatches(market, labels, 1).1;
    assert kept == [Match(0, 2, 1.0, 1.0)] by {
      ExampleClusters();
      assert kept == [] + first.1;
    }
    assert kept[1..] == [] && TradedBy([], 2) == 0.0;
    assert TradedBy(kept, 2) == 1.0 + TradedBy(kept[1..], 2);
  }

  // ---------------------------------------------------------------------------
  // The mechanism
  // ---------------------------------------------------------------------------

  lemma LedgerSnoc(market: seq<Order>, ms: seq<Match>, m: Match, id: nat)
    requires MatchesIn(ms, |market|) && m.b < |market| && m.s < |market|
    ensures MatchesIn(ms + [m], |market|)
    ensures Ledger(market, ms + [m], id) == Ledger(market, ms, id) + MatchLegs(market, m, id + |ms|)
  {
    LedgerConcat(market, ms, [m], id);
    var one := seq(1, k requires 0 <= k < 1 => MatchLegs(market, [m][k], id + |ms| + k));
    assert one == [MatchLegs(market, m, id + |ms|)];
    FlattenSingle(MatchLegs(market, m, id + |ms|));
  }

  /** A ledger holding `prefix` and the legs of `ms`, extended by the legs of `m`, holds the legs of `ms + [m]`. */
  lemma LedgerAppend(market: seq<Order>, prefix: seq<Leg>, ms: seq<Match>, m: Match, id0: nat, id: nat,
                     before: seq<Leg>, after: seq<Leg>)
    requires MatchesIn(ms, |market|) && m.b < |market| && m.s < |market| && id == id0 + |ms|
    requires before == prefix + Ledger(market, ms, id0) && after == before + MatchLegs(market, m, id)
    ensures MatchesIn(ms + [m], |market|) && after == prefix + Ledger(market, ms + [m], id0)
  {
    LedgerSnoc(market, ms, m, id0);
    ConcatAssoc(prefix, Ledger(market, ms, id0), MatchLegs(market, m, id));
  }

  /** A ledger holding `prefix` and the legs of `a`, extended by the legs of `b`, holds the legs of `a + b`. */
  lemma LedgerExtend(market: seq<Order>, prefix: seq<Leg>, a: seq<Match>, b: seq<Match>, id: nat, idB: nat,
                     before: seq<Leg>, after: seq<Leg>)
    requires MatchesIn(a, |market|) && MatchesIn(b, |market|) && idB == id + |a|
    requires before == prefix + Ledger(market, a, id) && after == before + Ledger(market, b, idB)
    ensures MatchesIn(a + b, |market|) && after == prefix + Ledger(market, a + b, id)
  {
    LedgerConcat(market, a, b, id);
    ConcatAssoc(prefix, Ledger(market, a, id), Ledger(market, b, idB));
  }

  /** A ledger holding the legs of `a`, extended by the legs of `b`, holds the legs of `a + b`. */
  lemma LedgerGrow(market: seq<Order>, a: seq<Match>, b: seq<Match>, id: nat, idB: nat, before: seq<Leg>, after: seq<Leg>)
    requires MatchesIn(a, |market|) && MatchesIn(b, |market|) && idB == id + |a|
    requires before == Ledger(market, a, id) && after == before + Ledger(market, b, idB)
    ensures MatchesIn(a + b, |market|) && after == Ledger(market, a + b, id)
  {
    LedgerConcat(market, a, b, id);
  }

  /** The matches still to come from seller `ss[j]` on, after one more seller. */
  lemma BuyerAdvance(market: seq<Order>, b: nat, held: real, ss: seq<nat>, j: nat, ms: seq<Match>,
                     target: seq<Match>)
    requires b < |market| && InRange(ss, |market|) && j < |ss|
    requires target == ms + BuyerPass(market, b, held, ss[j..])
    ensures var q := RealMin(held, market[ss[j]].energyQty);
      if Crosses(market, b, ss[j], held, market[ss[j]].energyQty) then
        target == (ms + [Match(b, ss[j], held, q)]) + BuyerPass(market, b, held - q, ss[j + 1..])
      else target == ms + BuyerPass(market, b, held, ss[j + 1..])
  {
    var q := RealMin(held, market[ss[j]].energyQty);
    BuyerPassStep(market, b, held, ss, j);
    if Crosses(market, b, ss[j], held, market[ss[j]].energyQty) {
      ConcatAssoc(ms, [Match(b, ss[j], held, q)], BuyerPass(market, b, held - q, ss[j + 1..]));
    }
  }

  lemma BuyerPassStep(market: seq<Order>, b: nat, held: real, ss: seq<nat>, j: nat)
    requires b < |market| && InRange(ss, |market|) && j < |ss|
    ensures BuyerPass(market, b, held, ss[j..]) ==
      if Crosses(market, b, ss[j], held, market[ss[j]].energyQty) then
        [Match(b, ss[j], held, RealMin(held, market[ss[j]].energyQty))] +
        BuyerPass(market, b, held - RealMin(held, market[ss[j]].energyQty), ss[j + 1..])
      else BuyerPass(market, b, held, ss[j + 1..])
  {
    assert ss[j..][0] == ss[j] && ss[j..][1..] == ss[j + 1..];
  }

  /**
   * Lines 39-57 for one buyer: its row copy's quantity drops with each trade,
   * each seller is read afresh at its original quantity.
   */
  method MatchBuyer(trans: TransactionManager, market: seq<Order>, b: nat, ss: seq<nat>, id0: nat)
    returns (id: nat, ghost ms: seq<Match>)
    requires trans.Valid() && b < |market| && InRange(ss, |market|)
    modifies trans
    ensures ms == BuyerPass(market, b, market[b].energyQty, ss) && MatchesIn(ms, |market|)
    ensures trans.Valid() && trans.trans == old(trans.trans) + Ledger(market, ms, id0)
    ensures id == id0 + |ms|
  {
    var buyer := market[b];
    id, ms := id0, [];
    ghost var target := BuyerPass(market, b, market[b].energyQty, ss);
    assert Ledger(market, [], id0) == [];
    assert ss[0..] == ss;
    for j := 0 to |ss|
      invariant buyer == market[b].(energyQty := buyer.energyQty)
      invariant target == ms + BuyerPass(market, b, buyer.energyQty, ss[j..])
      invariant MatchesIn(ms, |market|) && trans.Valid()
      invariant trans.trans == old(trans.trans) + Ledger(market, ms, id0) && id == id0 + |ms|
    {
      var seller := market[ss[j]];
      BuyerAdvance(market, b, buyer.energyQty, ss, j, ms, target);
      if buyer.energyRate >= seller.energyRate && buyer.energyQty > 0.0 && seller.energyQty > 0.0 {
        var q := RealMin(buyer.energyQty, seller.energyQty);
        ghost var m := Match(b, ss[j], buyer.energyQty, q);
        ghost var legs := trans.trans;
        AddTradeLegs(trans, id, buyer, seller, seller.energyRate, q);
        LedgerAppend(market, old(trans.trans), ms, m, id0, id, legs, trans.trans);
        buyer := buyer.(energyQty := buyer.energyQty - q);
        seller := seller.(energyQty := seller.energyQty - q);  // lands on the copy and is lost
        ms, id := ms + [m], id + 1;
      }
    }
    assert ss[|ss|..] == [];
    assert ms + [] == ms;
  }

  /** Lines 34-59: the cluster's buyers in turn, each against all the cluster's sellers. */
  method MatchCluster(trans: TransactionManager, market: seq<Order>, labels: seq<nat>, c: nat, id0: nat)
    returns (id: nat, ghost ms: seq<Match>)
    requires trans.Valid() && |market| == |labels|
    modifies trans
    ensures ms == ClusterPass(market, ClusterBuyers(market, labels, c), ClusterSellers(market, labels, c))
    ensures MatchesIn(ms, |market|)
    ensures trans.Valid() && trans.trans == old(trans.trans) + Ledger(market, ms, id0)
    ensures id == id0 + |ms|
  {
    var bs := ClusterBuyers(market, labels, c);
    var ss := ClusterSellers(market, labels, c);
    id, ms := id0, [];
    assert Ledger(market, [], id0) == [];
    for i := 0 to |bs|
      invariant ms == ClusterPass(market, bs[..i], ss) && MatchesIn(ms, |market|)
      invariant trans.Valid() && trans.trans == old(trans.trans) + Ledger(market, ms, id0) && id == id0 + |ms|
    {
      ghost var legs, idB := trans.trans, id;
      ghost var made;
      id, made := MatchBuyer(trans, market, bs[i], ss, id);
      LedgerExtend(market, old(trans.trans), ms, made, id0, idB, legs, trans.trans);
      assert bs[..i + 1][..i] == bs[..i];
      ms := ms + made;
    }
    assert bs[..|bs|] == bs;
  }

  /** Lines 63-64: the clusters `0..nCluster-1` in turn. */
  method MatchClusters(trans: TransactionManager, market: seq<Order>, labels: seq<nat>, nCluster: nat, firstId: nat)
    returns (nextId: nat, ghost matches: seq<Match>)
    requires trans.Valid() && trans.trans == [] && |market| == |labels|
    modifies trans
    ensures matches == HhcMatches(market, labels, nCluster) && MatchesIn(matches, |market|)
    ensures trans.Valid() && trans.trans == Ledger(market, matches, firstId) && nextId == firstId + |matches|
  {
    nextId, matches := firstId, [];
    assert Ledger(market, [], firstId) == [];
    for c := 0 to nCluster
      invariant matches == HhcMatches(market, labels, c) && MatchesIn(matches, |market|)
      invariant trans.Valid() && trans.trans == Ledger(market, matches, firstId) && nextId == firstId + |matches|
    {
      ghost var legs, id0 := trans.trans, nextId;
      ghost var made;
      nextId, made := MatchCluster(trans, market, labels, c, nextId);
      LedgerGrow(market, matches, made, firstId, id0, legs, trans.trans);
      matches := matches + made;
    }
  }

  /**
   * Lines 9-74: the clusters `0..nCluster-1` in turn over the bids-then-offers
   * layout; the extra value binds both keys to the whole batch.
   */
  method HhcClearingMechanism(orders: seq<Order>, labels: seq<nat>, nCluster: nat, firstId: nat)
    returns (trans: TransactionManager, extra: Extra, nextId: nat, ghost matches: seq<Match>)
    requires |labels| == |orders|
    ensures fresh(trans) && trans.Valid()
    ensures |Market(orders)| == |labels| && matches == HhcMatches(Market(orders), labels, nCluster)
    ensures MatchesIn(matches, |orders|) && trans.trans == Ledger(Market(orders), matches, firstId)
    ensures nextId == firstId + |matches|
    ensures extra == BatchEcho(orders)
  {
    trans := new TransactionManager();
    var market := Market(orders);
    MarketLayout(orders);
    nextId, matches := MatchClusters(trans, market, labels, nCluster, firstId);
    extra := BatchEcho(orders);
  }

  // ---------------------------------------------------------------------------
  // The mechanism with both reductions kept
  // ---------------------------------------------------------------------------

  /** The pass from a crossing seller `ss[j]` on: its match, then the pass from the lowered quantities. */
  lemma KeptCrossStep(market: seq<Order>, rem: seq<real>, b: nat, ss: seq<nat>, j: nat)
    requires b < |market| == |rem| && InRange(ss, |market|) && j < |ss|
    requires Crosses(market, b, ss[j], rem[b], rem[ss[j]])
    ensures var q := RealMin(rem[b], rem[ss[j]]);
      var next := rem[b := rem[b] - q][ss[j] := rem[ss[j]] - q];
      && KeptBuyerPass(market, rem, b, ss[j..]).0 == KeptBuyerPass(market, next, b, ss[j + 1..]).0
      && KeptBuyerPass(market, rem, b, ss[j..]).1 ==
           [Match(b, ss[j], rem[b], q)] + KeptBuyerPass(market, next, b, ss[j + 1..]).1
  {
    assert ss[j..][0] == ss[j] && ss[j..][1..] == ss[j + 1..];
  }

  /** The pass from a seller `ss[j]` that does not cross is the pass from `ss[j + 1]`. */
  lemma KeptSkipStep(market: seq<Order>, rem: seq<real>, b: nat, ss: seq<nat>, j: nat)
    requires b < |market| == |rem| && InRange(ss, |market|) && j < |ss|
    requires !Crosses(market, b, ss[j], rem[b], rem[ss[j]])
    ensures KeptBuyerPass(market, rem, b, ss[j..]) == KeptBuyerPass(market, rem, b, ss[j + 1..])
  {
    assert ss[j..][0] == ss[j] && ss[j..][1..] == ss[j + 1..];
  }

  /** A crossing seller `ss[j]`: the pass goes on from the lowered quantities, one match longer. */
  lemma KeptBuyerCross(market: seq<Order>, target: (seq<real>, seq<Match>), rem: seq<real>, b: nat,
                       ss: seq<nat>, j: nat,
                       ms: seq<Match>)
    requires b < |market| == |rem| && InRange(ss, |market|) && j < |ss|
    requires Crosses(market, b, ss[j], rem[b], rem[ss[j]])
    requires target.0 == KeptBuyerPass(market, rem, b, ss[j..]).0
    requires target.1 == ms + KeptBuyerPass(market, rem, b, ss[j..]).1
    ensures var q := RealMin(rem[b], rem[ss[j]]);
      var next := rem[b := rem[b] - q][ss[j] := rem[ss[j]] - q];
      && target.0 == KeptBuyerPass(market, next, b, ss[j + 1..]).0
      && target.1 ==
           (ms + [Match(b, ss[j], rem[b], q)]) + KeptBuyerPass(market, next, b, ss[j + 1..]).1
  {
    var q := RealMin(rem[b], rem[ss[j]]);
    var next := rem[b := rem[b] - q][ss[j] := rem[ss[j]] - q];
    KeptCrossStep(market, rem, b, ss, j);
    ConcatAssoc(ms, [Match(b, ss[j], rem[b], q)], KeptBuyerPass(market, next, b, ss[j + 1..]).1);
  }

  /** A seller `ss[j]` that does not cross leaves the quantities and the matches as they are. */
  lemma KeptBuyerSkip(market: seq<Order>, target: (seq<real>, seq<Match>), rem: seq<real>, b: nat,
                      ss: seq<nat>, j: nat,
                      ms: seq<Match>)
    requires b < |market| == |rem| && InRange(ss, |market|) && j < |ss|
    requires !Crosses(market, b, ss[j], rem[b], rem[ss[j]])
    requires target.0 == KeptBuyerPass(market, rem, b, ss[j..]).0
    requires target.1 == ms + KeptBuyerPass(market, rem, b, ss[j..]).1
    ensures target.0 == KeptBuyerPass(market, rem, b, ss[j + 1..]).0
    ensures target.1 == ms + KeptBuyerPass(market, rem, b, ss[j + 1..]).1
  {
    KeptSkipStep(market, rem, b, ss, j);
  }

  /** Past the last seller the pass has nothing left to add. */
  lemma KeptBuyerEnd(market: seq<Order>, target: (seq<real>, seq<Match>), rem: seq<real>, b: nat,
                     ss: seq<nat>, ms: seq<Match>)
    requires b < |market| == |rem| && InRange(ss, |market|)
    requires target.0 == KeptBuyerPass(market, rem, b, ss[|ss|..]).0
    requires target.1 == ms + KeptBuyerPass(market, rem, b, ss[|ss|..]).1
    ensures (rem, ms) == target
  {
    assert ss[|ss|..] == [];
    assert ms + [] == ms;
  }

  /**
   * Lines 55-56 with the seller's reduction kept: both the buyer's and the
   * seller's remaining quantity drop by `q`, each computed from the
   * quantities before the trade.
   */
  method Lower(rem: array<real>, b: nat, s: nat, q: real)
    requires b < rem.Length && s < rem.Length
    modifies rem
    ensures rem[..] == old(rem[..])[b := old(rem[b]) - q][s := old(rem[s]) - q]
  {
    var heldB, heldS := rem[b] - q, rem[s] - q;
    rem[b] := heldB;
    rem[s] := heldS;
  }

  /**
   * One buyer against the cluster's sellers when the remaining quantities of
   * all orders live in `rem`: a trade lowers both the buyer's and the
   * seller's entry.
   */
  method KeptMatchBuyer(trans: TransactionManager, market: seq<Order>, rem: array<real>, b: nat, ss: seq<nat>, id0: nat)
    returns (id: nat, ghost ms: seq<Match>)
    requires trans.Valid() && b < |market| == rem.Length && InRange(ss, |market|)
    modifies trans, rem
    ensures (rem[..], ms) == KeptBuyerPass(market, old(rem[..]), b, ss) && MatchesIn(ms, |market|)
    ensures trans.Valid() && trans.trans == old(trans.trans) + Ledger(market, ms, id0)
    ensures id == id0 + |ms|
  {
    id, ms := id0, [];
    ghost var start := rem[..];
    ghost var target := KeptBuyerPass(market, start, b, ss);
    assert Ledger(market, [], id0) == [];
    assert ss[0..] == ss;
    for j := 0 to |ss|
      invariant target.0 == KeptBuyerPass(market, rem[..], b, ss[j..]).0
      invariant target.1 == ms + KeptBuyerPass(market, rem[..], b, ss[j..]).1
      invariant MatchesIn(ms, |market|) && trans.Valid()
      invariant trans.trans == old(trans.trans) + Ledger(market, ms, id0) && id == id0 + |ms|
    {
      var s := ss[j];
      if market[b].energyRate >= market[s].energyRate && rem[b] > 0.0 && rem[s] > 0.0 {
        var q := RealMin(rem[b], rem[s]);
        ghost var cur := rem[..];
        ghost var m := Match(b, s, cur[b], q);
        KeptBuyerCross(market, target, cur, b, ss, j, ms);
        ghost var legs := trans.trans;
        AddTradeLegs(trans, id, market[b].(energyQty := rem[b]), market[s], market[s].energyRate, q);
        LedgerAppend(market, old(trans.trans), ms, m, id0, id, legs, trans.trans);
        Lower(rem, b, s, q);
        ms, id := ms + [m], id + 1;
      } else {
        KeptBuyerSkip(market, target, rem[..], b, ss, j, ms);
      }
    }
    KeptBuyerEnd(market, target, rem[..], b, ss, ms);
  }

  /** The cluster's buyers in turn, each against all the cluster's sellers, on `rem`. */
  method KeptMatchCluster(trans: TransactionManager, market: seq<Order>, rem: array<real>, labels: seq<nat>, c: nat, id0: nat)
    returns (id: nat, ghost ms: seq<Match>)
    requires trans.Valid() && |market| == |labels| == rem.Length
    modifies trans, rem
    ensures (rem[..], ms) ==
      KeptClusterPass(market, old(rem[..]), ClusterBuyers(market, labels, c), ClusterSellers(market, labels, c))
    ensures MatchesIn(ms, |market|)
    ensures trans.Valid() && trans.trans == old(trans.trans) + Ledger(market, ms, id0)
    ensures id == id0 + |ms|
  {
    var bs := ClusterBuyers(market, labels, c);
    var ss := ClusterSellers(market, labels, c);
    id, ms := id0, [];
    assert Ledger(market, [], id0) == [];
    for i := 0 to |bs|
      invariant (rem[..], ms) == KeptClusterPass(market, old(rem[..]), bs[..i], ss) && MatchesIn(ms, |market|)
      invariant trans.Valid() && trans.trans == old(trans.trans) + Ledger(market, ms, id0) && id == id0 + |ms|
    {
      ghost var legs, idB := trans.trans, id;
      ghost var made;
      assert bs[..i + 1][..i] == bs[..i];
      id, made := KeptMatchBuyer(trans, market, rem, bs[i], ss, id);
      LedgerExtend(market, old(trans.trans), ms, made, id0, idB, legs, trans.trans);
      ms := ms + made;
    }
    assert bs[..|bs|] == bs;
  }

  /** The remaining quantities before any cluster are the orders' own quantities. */
  lemma KeptInitial(market: seq<Order>, labels: seq<nat>, rem: seq<real>)
    requires |market| == |labels| == |rem|
    requires forall i :: 0 <= i < |rem| ==> rem[i] == market[i].energyQty
    ensures (rem, []) == KeptMatches(market, labels, 0)
  {
    var k := KeptMatches(market, labels, 0);
    assert rem == k.0 by {
      assert forall i :: 0 <= i < |rem| ==> k.0[i] == rem[i];
    }
  }

  /** One more cluster of `KeptMatches`, from the quantities and matches after `c` clusters. */
  lemma KeptNext(market: seq<Order>, labels: seq<nat>, c: nat, rem: seq<real>, ms: seq<Match>,
                 rem2: seq<real>, made: seq<Match>)
    requires |market| == |labels|
    requires (rem, ms) == KeptMatches(market, labels, c)
    requires (rem2, made) ==
      KeptClusterPass(market, rem, ClusterBuyers(market, labels, c), ClusterSellers(market, labels, c))
    ensures (rem2, ms + made) == KeptMatches(market, labels, c + 1)
  {
  }

  /**
   * The clearing with both reductions kept: the ledger is that of
   * `KeptMatches`, so no order trades more than it offered or bid for.
   */
  method HhcClearingKept(orders: seq<Order>, labels: seq<nat>, nCluster: nat, firstId: nat)
    returns (trans: TransactionManager, extra: Extra, nextId: nat, ghost matches: seq<Match>)
    requires |labels| == |orders|
    ensures fresh(trans) && trans.Valid()
    ensures |Market(orders)| == |labels| && matches == KeptMatches(Market(orders), labels, nCluster).1
    ensures MatchesIn(matches, |orders|) && trans.trans == Ledger(Market(orders), matches, firstId)
    ensures PositiveQuantities(Market(orders)) ==> forall o :: 0 <= o < |orders| ==>
      TradedBy(matches, o) <= Market(orders)[o].energyQty
    ensures nextId == firstId + |matches|
    ensures extra == BatchEcho(orders)
  {
    trans := new TransactionManager();
    var market := Market(orders);
    MarketLayout(orders);
    var rem := new real[|market|](i requires 0 <= i < |market| => market[i].energyQty);
    KeptInitial(market, labels, rem[..]);
    nextId, matches := firstId, [];
    assert Ledger(market, [], firstId) == [];
    for c := 0 to nCluster
      invariant (rem[..], matches) == KeptMatches(market, labels, c) && MatchesIn(matches, |market|)
      invariant trans.Valid() && trans.trans == Ledger(market, matches, firstId) && nextId == firstId + |matches|
    {
      ghost var legs, id0, rem0 := trans.trans, nextId, rem[..];
      ghost var made;
      nextId, made := KeptMatchCluster(trans, market, rem, labels, c, nextId);
      KeptNext(market, labels, c, rem0, matches, rem[..], made);
      LedgerGrow(market, matches, made, firstId, id0, legs, trans.trans);
      matches := matches + made;
    }
    if PositiveQuantities(market) {
      assert forall o :: 0 <= o < |market| ==> TradedBy(matches, o) <= market[o].energyQty by {
        KeptConserves(market, labels, nCluster);
      }
    }
    extra := BatchEcho(orders);
  }
}
