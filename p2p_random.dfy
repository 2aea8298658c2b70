/**
 * The pairwise random mechanism: every buyer is paired with every seller,
 * and in each round a random set of pairs is drawn in which no buyer and no
 * seller appears twice. The compatible pairs then trade, and pairs of
 * exhausted orders drop out. The random generator is a draw stream
 * `draw: nat -> nat`: `r.choice(where)` is `where[draw(k) % |where|]` for
 * the k-th draw.
 */
module P2PRandom {
  import opened Seqs
  import opened Orders
  import opened Transactions

  /** A candidate trade as (buyer row, seller row). */
  type Pair = (nat, nat)

  /** The pairs of buyer `b` with each seller in turn. */
  function RowPairs(b: nat, ss: seq<nat>): (ps: seq<Pair>)
    ensures |ps| == |ss|
    ensures forall j :: 0 <= j < |ss| ==> ps[j] == (b, ss[j])
  {
    seq(|ss|, j requires 0 <= j < |ss| => (b, ss[j]))
  }

  /** `pairs_inv`: every buyer with every seller, buyer-major. */
  function PairsOf(bs: seq<nat>, ss: seq<nat>): (ps: seq<Pair>)
    ensures |ps| == |bs| * |ss|
  {
    if bs == [] then [] else PairsOf(bs[..|bs| - 1], ss) + RowPairs(bs[|bs| - 1], ss)
  }

  /** Every pair holds one of the buyers and one of the sellers. */
  lemma {:induction false} PairsOfIn(bs: seq<nat>, ss: seq<nat>, c: nat)
    requires c < |PairsOf(bs, ss)|
    ensures PairsOf(bs, ss)[c].0 in bs && PairsOf(bs, ss)[c].1 in ss
  {
    var n := |bs| - 1;
    var prev := PairsOf(bs[..n], ss);
    assert PairsOf(bs, ss) == prev + RowPairs(bs[n], ss);
    if c < |prev| {
      PairsOfIn(bs[..n], ss, c);
      assert PairsOf(bs, ss)[c] == prev[c];
    } else {
      assert PairsOf(bs, ss)[c] == (bs[n], ss[c - |prev|]);
    }
  }

  /** Rows listed without repeats give pairs without repeats: no pair is a candidate twice. */
  lemma {:induction false} PairsOfDistinct(bs: seq<nat>, ss: seq<nat>)
    requires Increasing(bs) && Increasing(ss)
    ensures forall c, d :: 0 <= c < d < |PairsOf(bs, ss)| ==> PairsOf(bs, ss)[c] != PairsOf(bs, ss)[d]
  {
    if bs != [] {
      var n := |bs| - 1;
      var prev, ps := PairsOf(bs[..n], ss), PairsOf(bs, ss);
      PairsOfDistinct(bs[..n], ss);
      assert ps == prev + RowPairs(bs[n], ss);
      forall c, d | 0 <= c < d < |ps|
        ensures ps[c] != ps[d]
      {
        if d >= |prev| {
          assert ps[d] == (bs[n], ss[d - |prev|]);
          if c < |prev| {
            PairsOfIn(bs[..n], ss, c);
            assert ps[c] == prev[c];
            var i :| 0 <= i < n && bs[..n][i] == prev[c].0;
            assert bs[i] < bs[n];
          } else {
            assert ps[c] == (bs[n], ss[c - |prev|]);
          }
        } else {
          assert ps[c] == prev[c] && ps[d] == prev[d];
        }
      }
    }
  }

  /** A buyer or seller row is in a pair. */
  predicate Involves(p: Pair, o: nat) {
    p.0 == o || p.1 == o
  }

  /** Row `o` of `pairs` is false exactly at the pairs involving order `o`. */
  ghost predicate PairsMatrix(pairs: array2<bool>, inv: seq<Pair>, n: nat)
    reads pairs
  {
    pairs.Length0 == n && pairs.Length1 == |inv| &&
    forall o, c :: 0 <= o < n && 0 <= c < |inv| ==> (pairs[o, c] <==> !Involves(inv[c], o))
  }

  lemma MulStep(i: nat, nb: nat, ns: nat)
    requires i < nb
    ensures i * ns + ns <= nb * ns
  {
    assert (i + 1) * ns == i * ns + ns;
    assert (i + 1) * ns <= nb * ns;
  }

  /** Columns before `|inv|` are filled in for the pairs `inv`; later columns are untouched. */
  ghost predicate FilledUpTo(pairs: array2<bool>, inv: seq<Pair>)
    reads pairs
  {
    |inv| <= pairs.Length1 &&
    forall o, c :: 0 <= o < pairs.Length0 && 0 <= c < pairs.Length1 ==>
      (pairs[o, c] <==> c >= |inv| || !Involves(inv[c], o))
  }

  /** Lines 49-53: the pairs of buyer `b` with each seller, one column each. */
  method EnumerateRow(pairs: array2<bool>, inv0: seq<Pair>, b: nat, ss: seq<nat>) returns (inv: seq<Pair>)
    requires b < pairs.Length0 && forall j :: 0 <= j < |ss| ==> ss[j] < pairs.Length0
    requires |inv0| + |ss| <= pairs.Length1 && FilledUpTo(pairs, inv0)
    modifies pairs
    ensures inv == inv0 + RowPairs(b, ss) && FilledUpTo(pairs, inv)
  {
    inv := inv0;
    for j := 0 to |ss|
      invariant inv == inv0 + RowPairs(b, ss[..j]) && FilledUpTo(pairs, inv)
    {
      var s := ss[j];
      pairs[b, |inv|] := false;
      pairs[s, |inv|] := false;
      inv := inv + [(b, s)];
      assert RowPairs(b, ss[..j + 1]) == RowPairs(b, ss[..j]) + [(b, s)];
    }
    assert ss[..|ss|] == ss;
  }

  /**
   * Lines 45-53: `pairs` and `pairs_inv`. Column `c` stands for the pair
   * `inv[c]`, and the rows of the pair's buyer and seller are cleared in it.
   */
  method EnumeratePairs(orders: seq<Order>) returns (pairs: array2<bool>, inv: seq<Pair>)
    ensures fresh(pairs)
    ensures inv == PairsOf(SideRows(orders, true), SideRows(orders, false))
    ensures PairsMatrix(pairs, inv, |orders|)
  {
    var bs, ss := SideRows(orders, true), SideRows(orders, false);
    SideRowsPartition(orders, |orders|);
    pairs := new bool[|bs| + |ss|, |bs| * |ss|]((o, c) => true);
    inv := [];
    for i := 0 to |bs|
      invariant inv == PairsOf(bs[..i], ss) && FilledUpTo(pairs, inv)
    {
      assert bs[..i + 1][..i] == bs[..i];
      MulStep(i, |bs|, |ss|);
      inv := EnumerateRow(pairs, inv, bs[i], ss);
    }
    assert bs[..|bs|] == bs;
  }

  /** `tmp_active.sum()`: the number of pairs still eligible in this round. */
  function CountTrue(s: seq<bool>): (n: nat)
    ensures n <= |s|
  {
    if s == [] then 0 else CountTrue(s[..|s| - 1]) + (if s[|s| - 1] then 1 else 0)
  }

  /** `np.where(s)[0]`: the positions holding true. */
  function Where(s: seq<bool>): (w: seq<nat>)
    ensures |w| == CountTrue(s)
    ensures forall j :: 0 <= j < |w| ==> w[j] < |s| && s[w[j]]
  {
    if s == [] then [] else Where(s[..|s| - 1]) + (if s[|s| - 1] then [|s| - 1] else [])
  }

  /** Turning entries off never raises the count, and turning one off lowers it. */
  lemma {:induction false} CountMonotone(a: seq<bool>, b: seq<bool>, x: nat)
    requires |a| == |b| && forall i :: 0 <= i < |a| ==> a[i] ==> b[i]
    ensures CountTrue(a) <= CountTrue(b)
    ensures x < |a| && b[x] && !a[x] ==> CountTrue(a) < CountTrue(b)
  {
    if a != [] {
      var n := |a| - 1;
      CountMonotone(a[..n], b[..n], x);
    }
  }

  /** A count of zero means no entry is on. */
  lemma {:induction false} CountZero(s: seq<bool>, i: nat)
    requires i < |s| && s[i]
    ensures CountTrue(s) > 0
  {
    var n := |s| - 1;
    if i < n {
      CountZero(s[..n], i);
    }
  }

  /** `tmp_active &= pairs[o, :]`: drops the pairs that involve order `o`. */
  method MaskRow(tmp: array<bool>, pairs: array2<bool>, o: nat)
    requires tmp.Length == pairs.Length1 && o < pairs.Length0
    modifies tmp
    ensures forall c :: 0 <= c < tmp.Length ==> tmp[c] == (old(tmp[c]) && pairs[o, c])
  {
    for c := 0 to tmp.Length
      invariant forall d :: 0 <= d < c ==> tmp[d] == (old(tmp[d]) && pairs[o, d])
      invariant forall d :: c <= d < tmp.Length ==> tmp[d] == old(tmp[d])
    {
      tmp[c] := tmp[c] && pairs[o, c];
    }
  }

  /** No buyer and no seller appears in two pairs of a round. */
  predicate DistinctSides(round: seq<Pair>) {
    forall j, l :: 0 <= j < l < |round| ==> round[j].0 != round[l].0 && round[j].1 != round[l].1
  }

  /**
   * Pair `p` shares no order with the pairs of `round`: neither of its
   * orders is the buyer or the seller of a pair of `round`, which is what
   * masking with `pairs[b, :]` and `pairs[s, :]` tests.
   */
  predicate Apart(p: Pair, round: seq<Pair>) {
    forall j :: 0 <= j < |round| ==> !Involves(p, round[j].0) && !Involves(p, round[j].1)
  }

  /**
   * A round is maximal among the columns `eligible` at its start: each such
   * pair was drawn, or shares an order with a drawn pair.
   */
  predicate Maximal(inv: seq<Pair>, eligible: seq<bool>, round: seq<Pair>) {
    |eligible| == |inv| &&
    forall c :: 0 <= c < |inv| && eligible[c] ==> inv[c] in round || !Apart(inv[c], round)
  }

  /**
   * Lines 65-69 for the drawn column `x`: the pair is retired for good, and
   * every pair sharing its buyer or its seller is dropped from the round.
   */
  method DrawPair(active: array<bool>, tmp: array<bool>, pairs: array2<bool>, inv: seq<Pair>, x: nat)
    requires active != tmp && active.Length == tmp.Length == |inv|
    requires PairsMatrix(pairs, inv, pairs.Length0)
    requires x < |inv| && inv[x].0 < pairs.Length0 && inv[x].1 < pairs.Length0 && tmp[x]
    modifies active, tmp
    ensures active[..] == old(active[..])[x := false]
    ensures forall c :: 0 <= c < |inv| ==>
      tmp[c] == (old(tmp[c]) && !Involves(inv[c], inv[x].0) && !Involves(inv[c], inv[x].1))
    ensures CountTrue(tmp[..]) < CountTrue(old(tmp[..]))
  {
    var (b, s) := inv[x];
    active[x] := false;
    MaskRow(tmp, pairs, b);
    MaskRow(tmp, pairs, s);
    CountMonotone(tmp[..], old(tmp[..]), x);
  }

  /**
   * What a round keeps after its draws so far, against the masks `tmp0`
   * and `active0` it started with: each drawn column was eligible and is
   * drawn once, exactly the drawn columns are retired, and a column is
   * still eligible exactly when it was at the start, is not drawn and shares
   * no order with the round.
   */
  ghost predicate RoundSoFar(inv: seq<Pair>, tmp0: seq<bool>, active0: seq<bool>,
                             active: seq<bool>, tmp: seq<bool>, round: seq<Pair>, chosen: seq<nat>)
  {
    |tmp0| == |active0| == |active| == |tmp| == |inv| && |round| == |chosen| &&
    (forall j :: 0 <= j < |chosen| ==> chosen[j] < |inv| && tmp0[chosen[j]] && round[j] == inv[chosen[j]]) &&
    (forall j, l :: 0 <= j < l < |chosen| ==> chosen[j] != chosen[l]) &&
    (forall c :: 0 <= c < |inv| ==> (active[c] <==> active0[c] && c !in chosen)) &&
    (forall c :: 0 <= c < |inv| ==> (tmp[c] <==> tmp0[c] && c !in chosen && Apart(inv[c], round))) &&
    DistinctSides(round)
  }

  /** Drawing an eligible column `x` (`DrawPair`) keeps `RoundSoFar`. */
  lemma RoundStep(inv: seq<Pair>, tmp0: seq<bool>, active0: seq<bool>, active: seq<bool>, tmp: seq<bool>,
                  round: seq<Pair>, chosen: seq<nat>, x: nat, active1: seq<bool>, tmp1: seq<bool>)
    requires RoundSoFar(inv, tmp0, active0, active, tmp, round, chosen)
    requires x < |inv| && tmp[x] && active1 == active[x := false] && |tmp1| == |inv|
    requires forall c :: 0 <= c < |inv| ==>
      tmp1[c] == (tmp[c] && !Involves(inv[c], inv[x].0) && !Involves(inv[c], inv[x].1))
    ensures RoundSoFar(inv, tmp0, active0, active1, tmp1, round + [inv[x]], chosen + [x])
  {
    var round1, chosen1 := round + [inv[x]], chosen + [x];
    forall c | 0 <= c < |inv|
      ensures tmp1[c] <==> tmp0[c] && c !in chosen1 && Apart(inv[c], round1)
    {
      var p := inv[c];
      if tmp1[c] {
        assert c != x by {
          assert Involves(inv[x], inv[x].0);
        }
        forall j | 0 <= j < |round1| ensures !Involves(p, round1[j].0) && !Involves(p, round1[j].1) {
          if j < |round| {
            assert round1[j] == round[j];
          }
        }
      }
      if tmp0[c] && c !in chosen1 && Apart(p, round1) {
        assert Apart(p, round) by {
          forall j | 0 <= j < |round| ensures !Involves(p, round[j].0) && !Involves(p, round[j].1) {
            assert round1[j] == round[j];
          }
        }
        assert round1[|round|] == inv[x];
      }
    }
    forall j, l | 0 <= j < l < |round1| ensures round1[j].0 != round1[l].0 && round1[j].1 != round1[l].1 {
      if l == |round| {
        assert Apart(inv[x], round);
        assert round1[j] == round[j];
        assert !Involves(inv[x], round[j].0) && !Involves(inv[x], round[j].1);
      } else {
        assert round1[j] == round[j] && round1[l] == round[l];
      }
    }
  }

  /**
   * Lines 62-69: one round of draws. Each draw takes an eligible pair,
   * retires it for good (`active`) and makes every pair sharing its buyer
   * or its seller ineligible for the rest of the round (`tmp_active`).
   */
  method SelectRound(active: array<bool>, tmp: array<bool>, pairs: array2<bool>, inv: seq<Pair>,
                     draw: nat -> nat, k0: nat)
    returns (round: seq<Pair>, ghost chosen: seq<nat>, k: nat)
    requires active != tmp && active.Length == tmp.Length == |inv|
    requires PairsMatrix(pairs, inv, pairs.Length0)
    requires forall c :: 0 <= c < |inv| ==> inv[c].0 < pairs.Length0 && inv[c].1 < pairs.Length0
    modifies active, tmp
    ensures k == k0 + |chosen| && |round| == |chosen|
    ensures forall j :: 0 <= j < |chosen| ==> chosen[j] < |inv| && old(tmp[chosen[j]]) && round[j] == inv[chosen[j]]
    ensures forall j, l :: 0 <= j < l < |chosen| ==> chosen[j] != chosen[l]
    ensures forall c :: 0 <= c < |inv| ==> (active[c] <==> old(active[c]) && c !in chosen)
    ensures forall c :: 0 <= c < |inv| ==> !tmp[c]
    ensures DistinctSides(round)
    ensures CountTrue(old(tmp[..])) > 0 ==> |chosen| > 0
    ensures forall c :: 0 <= c < |inv| && old(tmp[c]) ==> c in chosen || !Apart(inv[c], round)
  {
    ghost var tmp0, active0 := tmp[..], active[..];
    round, chosen, k := [], [], k0;
    while CountTrue(tmp[..]) > 0
      invariant k == k0 + |chosen|
      invariant RoundSoFar(inv, tmp0, active0, active[..], tmp[..], round, chosen)
      invariant CountTrue(tmp0) > 0 ==> |chosen| > 0 || CountTrue(tmp[..]) > 0
      decreases CountTrue(tmp[..])
    {
      var where := Where(tmp[..]);
      var x := where[draw(k) % |where|];
      ghost var activeBefore, tmpBefore := active[..], tmp[..];
      DrawPair(active, tmp, pairs, inv, x);
      RoundStep(inv, tmp0, active0, activeBefore, tmpBefore, round, chosen, x, active[..], tmp[..]);
      round := round + [inv[x]];
      chosen := chosen + [x];
      k := k + 1;
    }
    forall c | 0 <= c < |inv|
      ensures !tmp[c]
    {
      if tmp[c] {
        CountZero(tmp[..], c);
      }
    }
  }

  /** A settled pair: buyer row, seller row, traded quantity and price. */
  datatype Trade = Trade(b: nat, s: nat, q: real, p: real)

  /** Every pair of `round` has a buying order first and a selling order second. */
  predicate Sided(orders: seq<Order>, round: seq<Pair>) {
    forall j :: 0 <= j < |round| ==>
      round[j].0 < |orders| && round[j].1 < |orders| &&
      orders[round[j].0].buying && !orders[round[j].1].buying
  }

  /** Line 75: the price splits the spread, a share `pCoef` from the bid. */
  function PairPrice(bid: real, offer: real, pCoef: real): real {
    bid * pCoef + (1.0 - pCoef) * offer
  }

  /**
   * Lines 73-87, on values, for one drawn pair: when the bid is at least the
   * offer the pair trades the smaller of the two remaining quantities, and
   * both remaining quantities go down by it; otherwise nothing happens.
   */
  function SettleOne(orders: seq<Order>, qs: seq<real>, pair: Pair, pCoef: real): (r: (seq<real>, seq<Trade>))
    requires |qs| == |orders| && pair.0 < |orders| && pair.1 < |orders|
    ensures |r.0| == |qs| && |r.1| <= 1
  {
    var b, s := pair.0, pair.1;
    if orders[b].energyRate >= orders[s].energyRate then
      var q := RealMin(qs[b], qs[s]);
      var afterBuyer := qs[b := qs[b] - q];
      (afterBuyer[s := afterBuyer[s] - q], [Trade(b, s, q, PairPrice(orders[b].energyRate, orders[s].energyRate, pCoef))])
    else
      (qs, [])
  }

  /** Lines 72-89, on values: the pairs of a round settled in the order drawn; the new quantities and the trades. */
  function Settle(orders: seq<Order>, qs: seq<real>, round: seq<Pair>, pCoef: real): (r: (seq<real>, seq<Trade>))
    requires |qs| == |orders| && Sided(orders, round)
    ensures |r.0| == |qs|
    decreases |round|
  {
    if round == [] then (qs, [])
    else
      var first := SettleOne(orders, qs, round[0], pCoef);
      var rest := Settle(orders, first.0, round[1..], pCoef);
      (rest.0, first.1 + rest.1)
  }

  /** The total an order has traded in `trades`. */
  function Involved(trades: seq<Trade>, o: nat): real {
    if trades == [] then 0.0
    else (if trades[0].b == o || trades[0].s == o then trades[0].q else 0.0) + Involved(trades[1..], o)
  }

  lemma {:induction false} InvolvedConcat(a: seq<Trade>, b: seq<Trade>, o: nat)
    ensures Involved(a + b, o) == Involved(a, o) + Involved(b, o)
  {
    if a != [] {
      assert (a + b)[0] == a[0] && (a + b)[1..] == a[1..] + b;
      InvolvedConcat(a[1..], b, o);
    } else {
      assert a + b == b;
    }
  }

  /** The (buyer, seller) pairs of `trades`. */
  function TradePairs(trades: seq<Trade>): (ps: seq<Pair>)
    ensures |ps| == |trades|
  {
    if trades == [] then [] else [(trades[0].b, trades[0].s)] + TradePairs(trades[1..])
  }

  /** The pairs of `round` whose bid is at least their offer, in order. */
  function CompatiblePairs(orders: seq<Order>, round: seq<Pair>): (ps: seq<Pair>)
    requires Sided(orders, round)
    ensures |ps| <= |round|
  {
    if round == [] then []
    else
      var rest := CompatiblePairs(orders, round[1..]);
      if orders[round[0].0].energyRate >= orders[round[0].1].energyRate then [round[0]] + rest else rest
  }

  lemma SidedTail(orders: seq<Order>, round: seq<Pair>)
    requires Sided(orders, round) && round != []
    ensures Sided(orders, round[1..])
  {
    forall j | 0 <= j < |round[1..]| ensures round[1..][j] == round[j + 1] { }
  }

  /**
   * Exactly the compatible pairs trade, in the order drawn, each at the
   * price that splits its spread; an incompatible pair leaves no trace.
   */
  lemma {:induction false} SettleTrades(orders: seq<Order>, qs: seq<real>, round: seq<Pair>, pCoef: real)
    requires |qs| == |orders| && Sided(orders, round)
    ensures TradePairs(Settle(orders, qs, round, pCoef).1) == CompatiblePairs(orders, round)
    ensures forall t :: t in Settle(orders, qs, round, pCoef).1 ==>
      t.b < |orders| && t.s < |orders| &&
      orders[t.b].energyRate >= orders[t.s].energyRate &&
      t.p == PairPrice(orders[t.b].energyRate, orders[t.s].energyRate, pCoef)
    decreases |round|
  {
    if round != [] {
      SidedTail(orders, round);
      var first := SettleOne(orders, qs, round[0], pCoef);
      var rest := Settle(orders, first.0, round[1..], pCoef).1;
      SettleTrades(orders, first.0, round[1..], pCoef);
      if first.1 == [] {
        assert first.1 + rest == rest;
      } else {
        assert (first.1 + rest)[1..] == rest;
      }
    }
  }

  /**
   * Quantity is conserved: each order's remaining quantity is its quantity
   * before the round less what it traded in the round.
   */
  lemma {:induction false} SettleConserves(orders: seq<Order>, qs: seq<real>, round: seq<Pair>, pCoef: real, o: nat)
    requires |qs| == |orders| && Sided(orders, round) && o < |qs|
    ensures Settle(orders, qs, round, pCoef).0[o] == qs[o] - Involved(Settle(orders, qs, round, pCoef).1, o)
    decreases |round|
  {
    if round != [] {
      SidedTail(orders, round);
      var first := SettleOne(orders, qs, round[0], pCoef);
      var rest := Settle(orders, first.0, round[1..], pCoef).1;
      SettleConserves(orders, first.0, round[1..], pCoef, o);
      InvolvedConcat(first.1, rest, o);
      assert first.0[o] == qs[o] - Involved(first.1, o) by {
        if first.1 != [] {
          assert first.1[1..] == [];
        }
      }
    }
  }

  /** Non-negative quantities stay non-negative, and no trade is for a negative quantity. */
  lemma {:induction false} SettleNonNegative(orders: seq<Order>, qs: seq<real>, round: seq<Pair>, pCoef: real)
    requires |qs| == |orders| && Sided(orders, round)
    requires forall o :: 0 <= o < |qs| ==> qs[o] >= 0.0
    ensures forall o :: 0 <= o < |qs| ==> Settle(orders, qs, round, pCoef).0[o] >= 0.0
    ensures forall t :: t in Settle(orders, qs, round, pCoef).1 ==> t.q >= 0.0
    decreases |round|
  {
    if round != [] {
      SidedTail(orders, round);
      var first := SettleOne(orders, qs, round[0], pCoef);
      SettleNonNegative(orders, first.0, round[1..], pCoef);
    }
  }

  /** Every trade comes from a pair of the round. */
  lemma {:induction false} TradeFromRound(orders: seq<Order>, qs: seq<real>, round: seq<Pair>, pCoef: real, t: Trade)
    requires |qs| == |orders| && Sided(orders, round)
    requires t in Settle(orders, qs, round, pCoef).1
    ensures (t.b, t.s) in round
    decreases |round|
  {
    SidedTail(orders, round);
    var first := SettleOne(orders, qs, round[0], pCoef);
    if t !in first.1 {
      TradeFromRound(orders, first.0, round[1..], pCoef, t);
    }
  }

  /**
   * When no buyer and no seller repeats in the round, every trade is for the
   * smaller of the two quantities its orders held when the round began.
   */
  lemma {:induction false} SettleAtRoundStart(orders: seq<Order>, qs: seq<real>, round: seq<Pair>, pCoef: real)
    requires |qs| == |orders| && Sided(orders, round) && DistinctSides(round)
    ensures forall t :: t in Settle(orders, qs, round, pCoef).1 ==>
      t.b < |qs| && t.s < |qs| && t.q == RealMin(qs[t.b], qs[t.s])
    decreases |round|
  {
    if round != [] {
      SidedTail(orders, round);
      var rest := round[1..];
      assert DistinctSides(rest) by {
        forall j | 0 <= j < |rest| ensures rest[j] == round[j + 1] { }
      }
      var first := SettleOne(orders, qs, round[0], pCoef);
      SettleAtRoundStart(orders, first.0, rest, pCoef);
      forall t | t in Settle(orders, first.0, rest, pCoef).1
        ensures qs[t.b] == first.0[t.b] && qs[t.s] == first.0[t.s]
      {
        TradeFromRound(orders, first.0, rest, pCoef, t);
        var j :| 0 <= j < |rest| && rest[j] == (t.b, t.s);
        assert round[j + 1] == rest[j];
      }
    }
  }

  /** Trades are over rows of the batch. */
  predicate TradesIn(trades: seq<Trade>, n: nat) {
    forall k :: 0 <= k < |trades| ==> trades[k].b < n && trades[k].s < n
  }

  /** The two legs of each trade, ids from `id` on. */
  function LegsOf(orders: seq<Order>, trades: seq<Trade>, id: nat): (ls: seq<seq<Leg>>)
    requires TradesIn(trades, |orders|)
    ensures |ls| == |trades|
  {
    seq(|trades|, k requires 0 <= k < |trades| =>
      TradeLegs(id + k, orders[trades[k].b], orders[trades[k].s], trades[k].p, trades[k].q))
  }

  /** The ledger of `trades`: two legs per trade, in trade order. */
  function LedgerOf(orders: seq<Order>, trades: seq<Trade>, id: nat): seq<Leg>
    requires TradesIn(trades, |orders|)
  {
    Flatten(LegsOf(orders, trades, id))
  }

  /** Trades recorded in two batches give the ledger of all of them, ids running on. */
  lemma LedgerConcat(orders: seq<Order>, a: seq<Trade>, b: seq<Trade>, id: nat)
    requires TradesIn(a, |orders|) && TradesIn(b, |orders|)
    ensures TradesIn(a + b, |orders|)
    ensures LedgerOf(orders, a + b, id) == LedgerOf(orders, a, id) + LedgerOf(orders, b, id + |a|)
  {
    assert TradesIn(a + b, |orders|) by {
      forall k | 0 <= k < |a + b| ensures (a + b)[k] == if k < |a| then a[k] else b[k - |a|] { }
    }
    assert LegsOf(orders, a + b, id) == LegsOf(orders, a, id) + LegsOf(orders, b, id + |a|);
    FlattenConcat(LegsOf(orders, a, id), LegsOf(orders, b, id + |a|));
  }

  /** A ledger holding the trades so far, extended by the legs of further trades, is the ledger of all of them. */
  lemma LedgerAppend(orders: seq<Order>, a: seq<Trade>, b: seq<Trade>, id: nat, idB: nat, before: seq<Leg>, after: seq<Leg>)
    requires TradesIn(a, |orders|) && TradesIn(b, |orders|) && idB == id + |a|
    requires before == LedgerOf(orders, a, id) && after == before + LedgerOf(orders, b, idB)
    ensures TradesIn(a + b, |orders|) && after == LedgerOf(orders, a + b, id)
  {
    LedgerConcat(orders, a, b, id);
  }

  /**
   * Legs `2k` and `2k + 1` are trade `k`'s buying and selling legs, sharing
   * the id `id + k`, and there are no other legs.
   */
  lemma LedgerAt(orders: seq<Order>, trades: seq<Trade>, id: nat, k: nat)
    requires TradesIn(trades, |orders|) && k < |trades|
    ensures |LedgerOf(orders, trades, id)| == 2 * |trades|
    ensures LedgerOf(orders, trades, id)[2 * k..2 * k + 2] ==
      TradeLegs(id + k, orders[trades[k].b], orders[trades[k].s], trades[k].p, trades[k].q)
  {
    FlattenPairs(LegsOf(orders, trades, id), k);
  }

  /** Lines 73-89 for one drawn pair: the trade, if any, on the quantities and in the ledger. */
  method SettlePair(trans: TransactionManager, quantities: array<real>, orders: seq<Order>,
                    pair: Pair, pCoef: real, id0: nat)
    returns (id: nat, ghost made: seq<Trade>)
    requires trans.Valid() && quantities.Length == |orders| && pair.0 < |orders| && pair.1 < |orders|
    modifies trans, quantities
    ensures (quantities[..], made) == SettleOne(orders, old(quantities[..]), pair, pCoef)
    ensures TradesIn(made, |orders|)
    ensures trans.Valid() && trans.trans == old(trans.trans) + LedgerOf(orders, made, id0)
    ensures id == id0 + |made|
  {
    var b, s := pair.0, pair.1;
    id, made := id0, [];
    if orders[b].energyRate >= orders[s].energyRate {
      var q := RealMin(quantities[b], quantities[s]);
      var p := PairPrice(orders[b].energyRate, orders[s].energyRate, pCoef);
      quantities[b] := quantities[b] - q;
      quantities[s] := quantities[s] - q;
      AddTradeLegs(trans, id, orders[b], orders[s], p, q);
      RecordTrade(orders, [], Trade(b, s, q, p), id0);
      made := [Trade(b, s, q, p)];
      id := id + 1;
    } else {
      assert LegsOf(orders, [], id0) == [];
    }
  }

  /** Lines 72-89: settles a drawn round, appending two legs per trade with a fresh id. */
  method SettlePairs(trans: TransactionManager, quantities: array<real>, orders: seq<Order>,
                     round: seq<Pair>, pCoef: real, id0: nat)
    returns (id: nat, ghost trades: seq<Trade>)
    requires trans.Valid() && quantities.Length == |orders| && Sided(orders, round)
    modifies trans, quantities
    ensures (quantities[..], trades) == Settle(orders, old(quantities[..]), round, pCoef)
    ensures TradesIn(trades, |orders|)
    ensures trans.Valid() && trans.trans == old(trans.trans) + LedgerOf(orders, trades, id0)
    ensures id == id0 + |trades|
  {
    id, trades := id0, [];
    assert round[0..] == round;
    assert Settle(orders, quantities[..], round, pCoef).1 == [] + Settle(orders, quantities[..], round, pCoef).1;
    for j := 0 to |round|
      invariant Sided(orders, round[j..])
      invariant TradesIn(trades, |orders|)
      invariant Settle(orders, old(quantities[..]), round, pCoef) ==
        (Settle(orders, quantities[..], round[j..], pCoef).0, trades + Settle(orders, quantities[..], round[j..], pCoef).1)
      invariant trans.Valid() && trans.trans == old(trans.trans) + LedgerOf(orders, trades, id0)
      invariant id == id0 + |trades|
    {
      ghost var step := SettleOne(orders, quantities[..], round[j], pCoef);
      ghost var later := Settle(orders, step.0, round[j + 1..], pCoef);
      assert round[j..][0] == round[j] && round[j..][1..] == round[j + 1..];
      SidedTail(orders, round[j..]);
      ghost var made;
      id, made := SettlePair(trans, quantities, orders, round[j], pCoef, id);
      LedgerConcat(orders, trades, made, id0);
      ConcatAssoc(trades, made, later.1);
      ConcatAssoc(old(trans.trans), LedgerOf(orders, trades, id0), LedgerOf(orders, made, id0 + |trades|));
      trades := trades + made;
    }
    assert trades + [] == trades;
  }

  /** The ledger of one more trade is the ledger so far followed by that trade's two legs. */
  lemma RecordTrade(orders: seq<Order>, trades: seq<Trade>, t: Trade, id0: nat)
    requires TradesIn(trades, |orders|) && t.b < |orders| && t.s < |orders|
    ensures TradesIn(trades + [t], |orders|)
    ensures LedgerOf(orders, trades + [t], id0) ==
      LedgerOf(orders, trades, id0) + TradeLegs(id0 + |trades|, orders[t.b], orders[t.s], t.p, t.q)
  {
    var id := id0 + |trades|;
    LedgerConcat(orders, trades, [t], id0);
    assert LegsOf(orders, [t], id) == [TradeLegs(id, orders[t.b], orders[t.s], t.p, t.q)];
    FlattenSingle(TradeLegs(id, orders[t.b], orders[t.s], t.p, t.q));
    assert LedgerOf(orders, [t], id) == TradeLegs(id, orders[t.b], orders[t.s], t.p, t.q);
  }

  /** The candidate pairs of a batch: every buyer with every seller. */
  function Candidates(orders: seq<Order>): (ps: seq<Pair>)
    ensures |ps| == |SideRows(orders, true)| * |SideRows(orders, false)|
  {
    PairsOf(SideRows(orders, true), SideRows(orders, false))
  }

  /** Each candidate pairs a buying order with a selling order, and no candidate repeats. */
  lemma CandidatesSided(orders: seq<Order>)
    ensures Sided(orders, Candidates(orders))
    ensures forall c, d :: 0 <= c < d < |Candidates(orders)| ==> Candidates(orders)[c] != Candidates(orders)[d]
  {
    var bs, ss := SideRows(orders, true), SideRows(orders, false);
    forall c | 0 <= c < |Candidates(orders)|
      ensures Candidates(orders)[c].0 in bs && Candidates(orders)[c].1 in ss
    {
      PairsOfIn(bs, ss, c);
    }
    SideRowsIncreasing(orders, true, |orders|);
    SideRowsIncreasing(orders, false, |orders|);
    PairsOfDistinct(bs, ss);
  }

  /** Lines 95-96: the rows among `rows` whose remaining quantity is exactly zero. */
  function Exhausted(rows: seq<nat>, qs: seq<real>): (ex: seq<nat>)
    requires forall k :: 0 <= k < |rows| ==> rows[k] < |qs|
    ensures forall k :: 0 <= k < |ex| ==> ex[k] < |qs| && qs[ex[k]] == 0.0
  {
    if rows == [] then []
    else
      var rest := Exhausted(rows[..|rows| - 1], qs);
      if qs[rows[|rows| - 1]] == 0.0 then rest + [rows[|rows| - 1]] else rest
  }

  /** Every listed row whose quantity is zero is reported. */
  lemma {:induction false} ExhaustedComplete(rows: seq<nat>, qs: seq<real>, o: nat)
    requires forall k :: 0 <= k < |rows| ==> rows[k] < |qs|
    requires o in rows && qs[o] == 0.0
    ensures o in Exhausted(rows, qs)
  {
    var n := |rows| - 1;
    if rows[n] != o {
      var k :| 0 <= k < |rows| && rows[k] == o;
      assert rows[..n][k] == o;
      ExhaustedComplete(rows[..n], qs, o);
    }
  }

  /** Lines 95-96: `inactive_buying + inactive_selling`. */
  function Inactive(orders: seq<Order>, qs: seq<real>): (ex: seq<nat>)
    requires |qs| == |orders|
    ensures forall k :: 0 <= k < |ex| ==> ex[k] < |qs| && qs[ex[k]] == 0.0
  {
    Exhausted(SideRows(orders, true), qs) + Exhausted(SideRows(orders, false), qs)
  }

  /** A pair avoids every inactive order exactly when both its orders have quantity left. */
  lemma InactiveCover(orders: seq<Order>, qs: seq<real>, p: Pair)
    requires |qs| == |orders| && p.0 < |orders| && p.1 < |orders|
    requires orders[p.0].buying && !orders[p.1].buying
    ensures (forall l :: 0 <= l < |Inactive(orders, qs)| ==> !Involves(p, Inactive(orders, qs)[l])) <==>
      qs[p.0] != 0.0 && qs[p.1] != 0.0
  {
    var bs, ss := SideRows(orders, true), SideRows(orders, false);
    var exB, exS := Exhausted(bs, qs), Exhausted(ss, qs);
    assert Inactive(orders, qs) == exB + exS;
    if qs[p.0] == 0.0 {
      SideRowsComplete(orders, true, p.0);
      ExhaustedComplete(bs, qs, p.0);
      var l :| 0 <= l < |exB| && exB[l] == p.0;
      assert (exB + exS)[l] == p.0;
    } else if qs[p.1] == 0.0 {
      SideRowsComplete(orders, false, p.1);
      ExhaustedComplete(ss, qs, p.1);
      var l :| 0 <= l < |exS| && exS[l] == p.1;
      assert (exB + exS)[|exB| + l] == p.1;
    }
  }

  /**
   * Lines 95-100: the pairs eligible in the next round are the pairs not yet
   * drawn whose buyer and seller both have quantity left.
   */
  method Reactivate(active: array<bool>, tmp: array<bool>, pairs: array2<bool>, inv: seq<Pair>,
                    quantities: array<real>, orders: seq<Order>)
    requires active != tmp && active.Length == tmp.Length == |inv| && quantities.Length == |orders|
    requires PairsMatrix(pairs, inv, |orders|) && Sided(orders, inv)
    modifies tmp
    ensures forall c :: 0 <= c < |inv| ==>
      (tmp[c] <==> active[c] && quantities[inv[c].0] != 0.0 && quantities[inv[c].1] != 0.0)
  {
    ghost var qs := quantities[..];
    var inactive := Inactive(orders, quantities[..]);
    forall c | 0 <= c < tmp.Length {
      tmp[c] := active[c];
    }
    for j := 0 to |inactive|
      invariant forall c :: 0 <= c < |inv| ==>
        (tmp[c] <==> active[c] && forall l :: 0 <= l < j ==> !Involves(inv[c], inactive[l]))
    {
      MaskRow(tmp, pairs, inactive[j]);
    }
    assert quantities[..] == qs;
    forall c | 0 <= c < |inv|
      ensures tmp[c] <==> active[c] && quantities[inv[c].0] != 0.0 && quantities[inv[c].1] != 0.0
    {
      InactiveCover(orders, qs, inv[c]);
    }
  }

  /** Every round pairs buyers with sellers. */
  ghost predicate AllSided(orders: seq<Order>, rounds: seq<seq<Pair>>) {
    forall r :: 0 <= r < |rounds| ==> Sided(orders, rounds[r])
  }

  /** The rounds settled one after the other from the quantities `qs`: the final quantities and all trades. */
  function Replay(orders: seq<Order>, qs: seq<real>, rounds: seq<seq<Pair>>, pCoef: real): (r: (seq<real>, seq<Trade>))
    requires |qs| == |orders| && AllSided(orders, rounds)
    ensures |r.0| == |qs|
  {
    if rounds == [] then (qs, [])
    else
      var n := |rounds| - 1;
      var before := Replay(orders, qs, rounds[..n], pCoef);
      var last := Settle(orders, before.0, rounds[n], pCoef);
      (last.0, before.1 + last.1)
  }

  /** Over the whole run, each order's remaining quantity is its initial quantity less all it traded. */
  lemma {:induction false} ReplayConserves(orders: seq<Order>, qs: seq<real>, rounds: seq<seq<Pair>>, pCoef: real, o: nat)
    requires |qs| == |orders| && AllSided(orders, rounds) && o < |qs|
    ensures Replay(orders, qs, rounds, pCoef).0[o] == qs[o] - Involved(Replay(orders, qs, rounds, pCoef).1, o)
  {
    if rounds != [] {
      var n := |rounds| - 1;
      var before := Replay(orders, qs, rounds[..n], pCoef);
      ReplayConserves(orders, qs, rounds[..n], pCoef, o);
      SettleConserves(orders, before.0, rounds[n], pCoef, o);
      InvolvedConcat(before.1, Settle(orders, before.0, rounds[n], pCoef).1, o);
    }
  }

  /** Non-negative starting quantities never go negative, and every trade is for a non-negative quantity. */
  lemma {:induction false} ReplayNonNegative(orders: seq<Order>, qs: seq<real>, rounds: seq<seq<Pair>>, pCoef: real)
    requires |qs| == |orders| && AllSided(orders, rounds)
    requires forall o :: 0 <= o < |qs| ==> qs[o] >= 0.0
    ensures forall o :: 0 <= o < |qs| ==> Replay(orders, qs, rounds, pCoef).0[o] >= 0.0
    ensures forall t :: t in Replay(orders, qs, rounds, pCoef).1 ==> t.q >= 0.0
  {
    if rounds != [] {
      var n := |rounds| - 1;
      var before := Replay(orders, qs, rounds[..n], pCoef);
      ReplayNonNegative(orders, qs, rounds[..n], pCoef);
      SettleNonNegative(orders, before.0, rounds[n], pCoef);
    }
  }

  /** Every trade of the run is between a bid at least its offer, at the price splitting the spread. */
  lemma {:induction false} ReplayTrades(orders: seq<Order>, qs: seq<real>, rounds: seq<seq<Pair>>, pCoef: real)
    requires |qs| == |orders| && AllSided(orders, rounds)
    ensures forall t :: t in Replay(orders, qs, rounds, pCoef).1 ==>
      t.b < |orders| && t.s < |orders| &&
      orders[t.b].energyRate >= orders[t.s].energyRate &&
      t.p == PairPrice(orders[t.b].energyRate, orders[t.s].energyRate, pCoef)
  {
    if rounds != [] {
      var n := |rounds| - 1;
      var before := Replay(orders, qs, rounds[..n], pCoef);
      ReplayTrades(orders, qs, rounds[..n], pCoef);
      SettleTrades(orders, before.0, rounds[n], pCoef);
    }
  }

  /** Line 36: the orders' quantities by row. */
  function InitialQuantities(orders: seq<Order>): (qs: seq<real>)
    ensures |qs| == |orders|
  {
    seq(|orders|, o requires 0 <= o < |orders| => orders[o].energyQty)
  }

  /** Both orders of pair `p` have quantity left in `qs`. */
  predicate LivePair(qs: seq<real>, p: Pair) {
    p.0 < |qs| && p.1 < |qs| && qs[p.0] != 0.0 && qs[p.1] != 0.0
  }

  /** Both orders of every pair of `round` have quantity left in `qs`. */
  predicate Live(qs: seq<real>, round: seq<Pair>) {
    forall j :: 0 <= j < |round| ==> LivePair(qs, round[j])
  }

  /** Every round after the first was drawn among pairs whose two orders both had quantity left. */
  ghost predicate LiveHistory(orders: seq<Order>, q0: seq<real>, rounds: seq<seq<Pair>>, pCoef: real)
    requires |q0| == |orders| && AllSided(orders, rounds)
  {
    forall r :: 1 <= r < |rounds| ==> Live(Replay(orders, q0, rounds[..r], pCoef).0, rounds[r])
  }

  /**
   * Pair `p` is eligible at the start of the round after the rounds
   * `before`: not drawn yet and, after the first round, with quantity left
   * in both its orders.
   */
  ghost predicate EligibleAfter(orders: seq<Order>, q0: seq<real>, pCoef: real, before: seq<seq<Pair>>, p: Pair)
    requires |q0| == |orders| && AllSided(orders, before)
  {
    p !in Flatten(before) && (before == [] || LivePair(Replay(orders, q0, before, pCoef).0, p))
  }

  /** The round after `before` left no pair eligible at its start both undrawn and apart from it. */
  ghost predicate MaximalAfter(orders: seq<Order>, inv: seq<Pair>, q0: seq<real>, pCoef: real,
                               before: seq<seq<Pair>>, round: seq<Pair>)
    requires |q0| == |orders| && AllSided(orders, before)
  {
    forall c :: 0 <= c < |inv| && EligibleAfter(orders, q0, pCoef, before, inv[c]) ==>
      inv[c] in round || !Apart(inv[c], round)
  }

  /** Every round of the run kept drawing until no pair eligible at its start could join it. */
  ghost predicate MaximalHistory(orders: seq<Order>, inv: seq<Pair>, q0: seq<real>, rounds: seq<seq<Pair>>, pCoef: real)
    requires |q0| == |orders| && AllSided(orders, rounds)
  {
    forall r :: 0 <= r < |rounds| ==> MaximalAfter(orders, inv, q0, pCoef, rounds[..r], rounds[r])
  }

  /** No pair occurs twice. */
  predicate NoRepeats(ps: seq<Pair>) {
    forall i, j :: 0 <= i < j < |ps| ==> ps[i] != ps[j]
  }

  /**
   * The state of a run after the rounds `general`, over the values of the
   * arrays: `act` is `active`, `tmp` is `tmp_active`, `qs` is `quantities`.
   * The rounds pair buyers with sellers, none twice; the active pairs are
   * those not yet drawn; after the first round the eligible pairs are the
   * active ones whose orders both have quantity left; the quantities and the
   * trades are those of settling the rounds in turn; and from the second
   * round on, every drawn pair had quantity left on both sides.
   */
  ghost predicate RunState(orders: seq<Order>, inv: seq<Pair>, q0: seq<real>, pCoef: real,
                           general: seq<seq<Pair>>, trades: seq<Trade>,
                           act: seq<bool>, tmp: seq<bool>, qs: seq<real>)
  {
    |q0| == |orders| && |act| == |inv| && |tmp| == |inv| &&
    AllSided(orders, general) &&
    (forall r :: 0 <= r < |general| ==> DistinctSides(general[r])) &&
    NoRepeats(Flatten(general)) &&
    (forall i :: 0 <= i < |Flatten(general)| ==> Flatten(general)[i] in inv) &&
    (forall c :: 0 <= c < |inv| ==> (act[c] <==> inv[c] !in Flatten(general))) &&
    (forall c :: 0 <= c < |inv| ==> (tmp[c] <==> act[c] && (general == [] || LivePair(qs, inv[c])))) &&
    (qs, trades) == Replay(orders, q0, general, pCoef) &&
    LiveHistory(orders, q0, general, pCoef)
  }

  /** The state before any round: nothing drawn, every pair active and eligible. */
  lemma RunStateInit(orders: seq<Order>, inv: seq<Pair>, pCoef: real, act: seq<bool>, tmp: seq<bool>)
    requires |act| == |tmp| == |inv|
    requires forall c :: 0 <= c < |inv| ==> act[c] && tmp[c]
    ensures RunState(orders, inv, InitialQuantities(orders), pCoef, [], [], act, tmp, InitialQuantities(orders))
  {
  }

  /**
   * One more round keeps the run's state: the round drawn from the eligible
   * pairs (`SelectRound`), settled (`Settle`), with the eligible pairs then
   * recomputed (`Reactivate`).
   */
  lemma RunStateStep(orders: seq<Order>, inv: seq<Pair>, q0: seq<real>, pCoef: real,
                     general: seq<seq<Pair>>, trades: seq<Trade>,
                     act0: seq<bool>, tmp0: seq<bool>, qs0: seq<real>,
                     round: seq<Pair>, chosen: seq<nat>, act1: seq<bool>,
                     roundTrades: seq<Trade>, qs1: seq<real>, tmp2: seq<bool>)
    requires RunState(orders, inv, q0, pCoef, general, trades, act0, tmp0, qs0)
    requires NoRepeats(inv) && Sided(orders, round) && DistinctSides(round)
    requires |round| == |chosen| && |act1| == |tmp2| == |inv|
    requires forall j :: 0 <= j < |chosen| ==> chosen[j] < |inv| && tmp0[chosen[j]] && round[j] == inv[chosen[j]]
    requires forall j, l :: 0 <= j < l < |chosen| ==> chosen[j] != chosen[l]
    requires forall c :: 0 <= c < |inv| ==> (act1[c] <==> act0[c] && c !in chosen)
    requires (qs1, roundTrades) == Settle(orders, qs0, round, pCoef)
    requires forall c :: 0 <= c < |inv| ==> (tmp2[c] <==> act1[c] && LivePair(qs1, inv[c]))
    ensures RunState(orders, inv, q0, pCoef, general + [round], trades + roundTrades, act1, tmp2, qs1)
  {
    var next := general + [round];
    assert Flatten(next) == Flatten(general) + round;
    RoundBookkeeping(inv, Flatten(general), round, chosen, act0, tmp0, act1);
    assert general != [] ==> Live(qs0, round) by {
      if general != [] {
        forall j | 0 <= j < |round| ensures LivePair(qs0, round[j]) {
          assert tmp0[chosen[j]];
        }
      }
    }
    ReplayStep(orders, q0, pCoef, general, trades, qs0, round, roundTrades, qs1);
  }

  /** One more settled round extends the replay, and the liveness of each round after the first. */
  lemma ReplayStep(orders: seq<Order>, q0: seq<real>, pCoef: real, general: seq<seq<Pair>>, trades: seq<Trade>,
                   qs0: seq<real>, round: seq<Pair>, roundTrades: seq<Trade>, qs1: seq<real>)
    requires |q0| == |orders| && AllSided(orders, general) && Sided(orders, round) && AllSided(orders, general + [round])
    requires (qs0, trades) == Replay(orders, q0, general, pCoef)
    requires LiveHistory(orders, q0, general, pCoef)
    requires general != [] ==> Live(qs0, round)
    requires (qs1, roundTrades) == Settle(orders, qs0, round, pCoef)
    ensures (qs1, trades + roundTrades) == Replay(orders, q0, general + [round], pCoef)
    ensures LiveHistory(orders, q0, general + [round], pCoef)
  {
    var next := general + [round];
    assert next[..|general|] == general;
    assert forall r :: 0 <= r < |general| ==> next[r] == general[r] && next[..r] == general[..r];
  }

  /** A maximal round drawn from the eligible pairs `tmp0` of a run's state extends `MaximalHistory`. */
  lemma MaximalStep(orders: seq<Order>, inv: seq<Pair>, q0: seq<real>, pCoef: real,
                    general: seq<seq<Pair>>, trades: seq<Trade>,
                    act0: seq<bool>, tmp0: seq<bool>, qs0: seq<real>, round: seq<Pair>)
    requires RunState(orders, inv, q0, pCoef, general, trades, act0, tmp0, qs0)
    requires Sided(orders, round) && MaximalHistory(orders, inv, q0, general, pCoef)
    requires Maximal(inv, tmp0, round)
    ensures AllSided(orders, general + [round])
    ensures MaximalHistory(orders, inv, q0, general + [round], pCoef)
  {
    var next := general + [round];
    assert AllSided(orders, next) by {
      forall r | 0 <= r < |next| ensures Sided(orders, next[r]) {
        if r < |general| {
          assert next[r] == general[r];
        }
      }
    }
    assert MaximalAfter(orders, inv, q0, pCoef, general, round) by {
      forall c | 0 <= c < |inv| && EligibleAfter(orders, q0, pCoef, general, inv[c])
        ensures inv[c] in round || !Apart(inv[c], round)
      {
        assert tmp0[c];
      }
    }
    forall r | 0 <= r < |next| ensures MaximalAfter(orders, inv, q0, pCoef, next[..r], next[r]) {
      if r < |general| {
        assert next[..r] == general[..r] && next[r] == general[r];
      } else {
        assert next[..r] == general && next[r] == round;
      }
    }
  }

  /**
   * The drawn pairs after one more round: still without repeats, still
   * candidates, and a pair is active exactly when it has not been drawn.
   */
  lemma RoundBookkeeping(inv: seq<Pair>, drawn: seq<Pair>, round: seq<Pair>, chosen: seq<nat>,
                         act0: seq<bool>, tmp0: seq<bool>, act1: seq<bool>)
    requires NoRepeats(inv) && NoRepeats(drawn)
    requires |act0| == |tmp0| == |act1| == |inv|
    requires forall c :: 0 <= c < |inv| ==> (act0[c] <==> inv[c] !in drawn)
    requires |round| == |chosen|
    requires forall c :: 0 <= c < |inv| ==> tmp0[c] ==> act0[c]
    requires forall j :: 0 <= j < |chosen| ==> chosen[j] < |inv| && tmp0[chosen[j]] && round[j] == inv[chosen[j]]
    requires forall j, l :: 0 <= j < l < |chosen| ==> chosen[j] != chosen[l]
    requires forall c :: 0 <= c < |inv| ==> (act1[c] <==> act0[c] && c !in chosen)
    ensures NoRepeats(drawn + round)
    ensures forall j :: 0 <= j < |round| ==> round[j] in inv
    ensures forall c :: 0 <= c < |inv| ==> (act1[c] <==> inv[c] !in drawn + round)
  {
    var all := drawn + round;
    forall i, j | 0 <= i < j < |all|
      ensures all[i] != all[j]
    {
      if j >= |drawn| {
        var cj := chosen[j - |drawn|];
        assert all[j] == inv[cj];
        if i >= |drawn| {
          assert all[i] == inv[chosen[i - |drawn|]];
        } else {
          assert all[i] in drawn;
        }
      }
    }
    forall c | 0 <= c < |inv|
      ensures act1[c] <==> inv[c] !in all
    {
      if inv[c] in round {
        var j :| 0 <= j < |round| && round[j] == inv[c];
        assert chosen[j] == c;
      }
      if c in chosen {
        var j :| 0 <= j < |chosen| && chosen[j] == c;
        assert round[j] == inv[c];
      }
    }
  }

  /**
   * Lines 61-100, one pass of the outer loop: draw a round from the
   * eligible pairs, settle it, and recompute the eligible pairs. The array
   * contents before are `act0`, `tmp0`, `qs0` and after are `act1`, `tmp1`,
   * `qs1`; at least one active pair is retired.
   */
  method PlayRound(orders: seq<Order>, inv: seq<Pair>, pairs: array2<bool>,
                   active: array<bool>, tmp: array<bool>, quantities: array<real>, trans: TransactionManager,
                   pCoef: real, draw: nat -> nat, id0: nat, k0: nat,
                   ghost act0: seq<bool>, ghost tmp0: seq<bool>, ghost qs0: seq<real>)
    returns (round: seq<Pair>, ghost chosen: seq<nat>, ghost roundTrades: seq<Trade>, id: nat, k: nat,
             ghost act1: seq<bool>, ghost tmp1: seq<bool>, ghost qs1: seq<real>)
    requires active != tmp && active.Length == tmp.Length == |inv| && quantities.Length == |orders|
    requires PairsMatrix(pairs, inv, |orders|) && Sided(orders, inv) && trans.Valid()
    requires act0 == active[..] && tmp0 == tmp[..] && qs0 == quantities[..]
    requires (forall c :: 0 <= c < |inv| ==> tmp0[c] ==> act0[c]) && CountTrue(tmp0) > 0
    modifies active, tmp, quantities, trans
    ensures act1 == active[..] && tmp1 == tmp[..] && qs1 == quantities[..]
    ensures Sided(orders, round) && DistinctSides(round) && |round| == |chosen| && |act1| == |tmp1| == |inv|
    ensures forall j :: 0 <= j < |chosen| ==> chosen[j] < |inv| && tmp0[chosen[j]] && round[j] == inv[chosen[j]]
    ensures forall j, l :: 0 <= j < l < |chosen| ==> chosen[j] != chosen[l]
    ensures forall c :: 0 <= c < |inv| ==> (act1[c] <==> act0[c] && c !in chosen)
    ensures (qs1, roundTrades) == Settle(orders, qs0, round, pCoef)
    ensures forall c :: 0 <= c < |inv| ==> (tmp1[c] <==> act1[c] && LivePair(qs1, inv[c]))
    ensures TradesIn(roundTrades, |orders|) && trans.Valid()
    ensures trans.trans == old(trans.trans) + LedgerOf(orders, roundTrades, id0) && id == id0 + |roundTrades|
    ensures CountTrue(act1) < CountTrue(act0)
    ensures Maximal(inv, tmp0, round)
  {
    round, chosen, k := SelectRound(active, tmp, pairs, inv, draw, k0);
    act1 := active[..];
    assert Maximal(inv, tmp0, round) by {
      forall c | 0 <= c < |inv| && tmp0[c] ensures inv[c] in round || !Apart(inv[c], round) {
        if c in chosen {
          var j :| 0 <= j < |chosen| && chosen[j] == c;
          assert round[j] == inv[c];
        }
      }
    }
    assert Sided(orders, round) by {
      forall j | 0 <= j < |round| ensures round[j] == inv[chosen[j]] { }
    }
    CountMonotone(act1, act0, chosen[0]);
    id, roundTrades := SettlePairs(trans, quantities, orders, round, pCoef, id0);
    qs1 := quantities[..];
    Reactivate(active, tmp, pairs, inv, quantities, orders);
    tmp1 := tmp[..];
    assert active[..] == act1 && quantities[..] == qs1;
  }

  /**
   * When the loop stops, either no quantity is left in total or every pair
   * not yet drawn involves an order with nothing left.
   */
  lemma RunStateEnd(orders: seq<Order>, inv: seq<Pair>, q0: seq<real>, pCoef: real,
                    general: seq<seq<Pair>>, trades: seq<Trade>, act: seq<bool>, tmp: seq<bool>, qs: seq<real>)
    requires RunState(orders, inv, q0, pCoef, general, trades, act, tmp, qs)
    requires Sum(qs) <= 0.0 || CountTrue(tmp) == 0
    ensures Sum(qs) <= 0.0 || forall c :: 0 <= c < |inv| ==> inv[c] in Flatten(general) || !LivePair(qs, inv[c])
  {
    if Sum(qs) > 0.0 {
      forall c | 0 <= c < |inv|
        ensures inv[c] in Flatten(general) || !LivePair(qs, inv[c])
      {
        if tmp[c] {
          CountZero(tmp, c);
        }
      }
    }
  }

  /**
   * Lines 60-100: the outer loop, run while some quantity remains and some
   * pair is eligible; every pass retires at least one active pair.
   */
  method PlayRounds(orders: seq<Order>, inv: seq<Pair>, pairs: array2<bool>,
                    active: array<bool>, tmp: array<bool>, quantities: array<real>, trans: TransactionManager,
                    pCoef: real, draw: nat -> nat, firstId: nat, ghost q0: seq<real>)
    returns (general: seq<seq<Pair>>, ghost trades: seq<Trade>, nextId: nat)
    requires active != tmp && quantities.Length == |orders|
    requires PairsMatrix(pairs, inv, |orders|) && Sided(orders, inv) && NoRepeats(inv)
    requires RunState(orders, inv, q0, pCoef, [], [], active[..], tmp[..], quantities[..])
    requires trans.Valid() && trans.trans == []
    modifies active, tmp, quantities, trans
    ensures RunState(orders, inv, q0, pCoef, general, trades, active[..], tmp[..], quantities[..])
    ensures MaximalHistory(orders, inv, q0, general, pCoef)
    ensures Sum(quantities[..]) <= 0.0 || CountTrue(tmp[..]) == 0
    ensures TradesIn(trades, |orders|) && trans.Valid() && trans.trans == LedgerOf(orders, trades, firstId)
    ensures nextId == firstId + |trades|
  {
    trades, nextId, general := [], firstId, [];
    var k := 0;
    assert LegsOf(orders, [], firstId) == [];
    while Sum(quantities[..]) > 0.0 && CountTrue(tmp[..]) > 0
      invariant RunState(orders, inv, q0, pCoef, general, trades, active[..], tmp[..], quantities[..])
      invariant MaximalHistory(orders, inv, q0, general, pCoef)
      invariant TradesIn(trades, |orders|) && trans.Valid() && trans.trans == LedgerOf(orders, trades, firstId)
      invariant nextId == firstId + |trades|
      decreases CountTrue(active[..])
    {
      ghost var act0, tmp0, qs0, legs0, id0 := active[..], tmp[..], quantities[..], trans.trans, nextId;
      var round;
      ghost var chosen, roundTrades, act1, tmp1, qs1;
      round, chosen, roundTrades, nextId, k, act1, tmp1, qs1 :=
        PlayRound(orders, inv, pairs, active, tmp, quantities, trans, pCoef, draw, nextId, k, act0, tmp0, qs0);
      MaximalStep(orders, inv, q0, pCoef, general, trades, act0, tmp0, qs0, round);
      RunStateStep(orders, inv, q0, pCoef, general, trades, act0, tmp0, qs0, round, chosen, act1,
                   roundTrades, qs1, tmp1);
      LedgerAppend(orders, trades, roundTrades, firstId, id0, legs0, trans.trans);
      general, trades := general + [round], trades + roundTrades;
    }
  }

  /**
   * Lines 21-103: `p2p_random`. Rounds of random draws are settled one after
   * the other while some quantity remains and some pair is eligible; the
   * ledger and the list of rounds are returned.
   */
  method P2PRandomMechanism(orders: seq<Order>, pCoef: real, draw: nat -> nat, firstId: nat)
    returns (trans: TransactionManager, extra: Extra, nextId: nat,
             ghost rounds: seq<seq<Pair>>, ghost trades: seq<Trade>, ghost remaining: seq<real>)
    ensures fresh(trans) && trans.Valid()
    ensures extra == TradingList(rounds)
    ensures AllSided(orders, rounds) && forall r :: 0 <= r < |rounds| ==> DistinctSides(rounds[r])
    ensures NoRepeats(Flatten(rounds)) && forall i :: 0 <= i < |Flatten(rounds)| ==> Flatten(rounds)[i] in Candidates(orders)
    ensures (remaining, trades) == Replay(orders, InitialQuantities(orders), rounds, pCoef)
    ensures LiveHistory(orders, InitialQuantities(orders), rounds, pCoef)
    ensures MaximalHistory(orders, Candidates(orders), InitialQuantities(orders), rounds, pCoef)
    ensures TradesIn(trades, |orders|) && trans.trans == LedgerOf(orders, trades, firstId)
    ensures nextId == firstId + |trades|
    ensures Sum(remaining) <= 0.0 || forall c :: 0 <= c < |Candidates(orders)| ==>
      Candidates(orders)[c] in Flatten(rounds) || !LivePair(remaining, Candidates(orders)[c])
  {
    var quantities := new real[|orders|](o requires 0 <= o < |orders| => orders[o].energyQty);
    ghost var q0 := quantities[..];
    assert q0 == InitialQuantities(orders);
    var pairs, inv := EnumeratePairs(orders);
    CandidatesSided(orders);
    var active := new bool[|inv|](c => true);
    var tmp := new bool[|inv|](c => true);
    trans := new TransactionManager();
    RunStateInit(orders, inv, pCoef, active[..], tmp[..]);
    assert LegsOf(orders, [], firstId) == [];
    var general;
    general, trades, nextId := PlayRounds(orders, inv, pairs, active, tmp, quantities, trans, pCoef, draw, firstId, q0);
    extra := TradingList(general);
    rounds, remaining := general, quantities[..];
    RunStateEnd(orders, inv, q0, pCoef, general, trades, active[..], tmp[..], quantities[..]);
  }
}
