# EUnix market clearing, modelled in Dafny

This project models the clearing core of the EUnix peer-to-peer energy
market. A batch of orders (bids to buy and offers to sell energy, each with
a quantity `energy_qty`, a price `energy_rate` and a side `type`) is cleared
by one of three mechanisms into an append-only ledger of transaction legs:

- **uniform price** (`Uniform`): the stepwise demand and supply curves
  (`DemandCurves`) are intersected. At the crossing price the short side
  trades in full, and the long side fills in price order until the traded
  quantity is met.
- **random pairwise trading** (`P2PRandom`): rounds of randomly drawn
  buyer–seller pairs with disjoint members trade at a blend of their prices.
  This repeats until no quantity or no live untried pair is left.
- **cluster clearing** (`HhcMechanism`): within each price cluster, every
  buyer meets every seller and trades at the seller's price.

Around these sit:

- the order and transaction books (`Orders`, `Transactions`);
- the adapter that runs an algorithm and skips one-sided batches
  (`MechanismAdapter`);
- the same-price aggregation of bids with its new-id counter (`Process`);
- the split of a ledger cleared on merged bids back onto the original bids,
  with a proportional fee split (`Processing`).

Modelling conventions:

- Row labels are positions in the batch.
- Prices and quantities are `real`.
- `np.inf` is `Inf` of `ExtReal.Ext`.
- Transaction ids come from a counter (`firstId`, `nextId`), where the
  source draws uuids.
- The random generator is a draw stream `draw: nat -> nat`.
- Price rounding is a key function `key: real -> real`.
- Cluster labels, which the source gets from a clustering library, are an
  input.

Several functions exist in near-identical copies, and the model follows one
of them:

- the curve, lookup and intersection functions of
  `EUnix/EUnix/auctions/demand_curves.py` and
  `EUnix/mechanisms/uniform_process.py`;
- the id generator and merge of the three `process.py` files (the two
  current ones agree; the legacy one is `Process.LegacyMergeSamePrice`);
- the two `processing.py` files.

The intersection re-accumulates the curves' first column, which already
holds cumulative quantities. The model keeps this as written, and
`DemandCurves.DoubleAccumulationExample` shows a case where it reports a
crossing at quantity 3 although the bids total only 2.

## Model

| member | source | states |
|---|---|---|
| ExtReal.Min | EUnix/EUnix/auctions/demand_curves.py:163 | the minimum is below both arguments and is one of them, also with an infinite argument |
| ExtReal.Mid | EUnix/EUnix/auctions/demand_curves.py:165 | the midpoint of two prices is finite exactly when both are, and lies between them when the bid covers the ask |
| Orders.SideRows | EUnix/mechanisms/p2p_random.py:29-30 | the rows selected for a side are rows of the batch on that side |
| Orders.SideRowsComplete | EUnix/EUnix/auctions/demand_curves.py:12 | every row on the side is selected |
| Orders.SideRowsIncreasing | EUnix/EUnix/auctions/demand_curves.py:86 | the selected rows keep batch order, each once |
| Orders.SideRowsPartition | EUnix/mechanisms/p2p_random.py:29-30 | the bid rows and the offer rows together number the whole batch |
| Orders.OrderManager.constructor | EUnix/EUnix/auctions/orders.py:35-38 | a new book holds no orders and its count is zero |
| Orders.OrderManager.AddOrder | EUnix/EUnix/auctions/orders.py:40-104 | the order is appended with all fourteen columns, the count grows by one, and the returned index is the new order's position |
| Orders.AddTwoOrders | EUnix/EUnix/auctions/orders.py:51-55 | an order added with only the required arguments gets power 0 and no attributes, requirements, area or direction |
| Transactions.TradeLegs | EUnix/mechanisms/p2p_random.py:80-84 | a trade gives two legs, Buying then Selling, with one id, price and quantity, both carrying the bid's and the offer's ids and prices |
| Transactions.AddTradeLegs | EUnix/mechanisms/p2p_random.py:88-89 | the ledger grows by exactly the two legs of the trade |
| Transactions.TransactionManager.constructor | EUnix/transactions/transactions.py:22-25 | a new ledger is empty |
| Transactions.TransactionManager.AddTransaction | EUnix/transactions/transactions.py:62-69 | the leg is appended and its index is returned; the count tracks the ledger's length |
| Transactions.TransactionManager.Merge | EUnix/transactions/transactions.py:75-85 | a fresh ledger holding this ledger's legs followed by the other's |
| DemandCurves.InsertSpec | EUnix/EUnix/auctions/demand_curves.py:13 | inserting into a sorted index keeps it sorted and adds exactly one element |
| DemandCurves.SortBySpec | EUnix/EUnix/auctions/demand_curves.py:13 | sorting by price yields a sorted permutation of the rows |
| DemandCurves.StepsAt | EUnix/EUnix/auctions/demand_curves.py:14-15 | step `k` of a curve is the cumulative quantity of the first `k + 1` rows at row `k`'s price |
| DemandCurves.DemandCurveSpec | EUnix/EUnix/auctions/demand_curves.py:6-18 | the demand index lists every bid once, by falling price, and the curve is its cumulative steps closed by `(inf, 0)` |
| DemandCurves.SupplyCurveSpec | EUnix/EUnix/auctions/demand_curves.py:21-92 | the supply index lists every offer once, by rising price, and the curve is its cumulative steps closed by `(inf, inf)` |
| DemandCurves.DemandPrices | EUnix/EUnix/auctions/demand_curves.py:15-16 | each demand step carries its bid's price; the last is the sentinel |
| DemandCurves.SupplyPrices | EUnix/EUnix/auctions/demand_curves.py:89-90 | each supply step carries its offer's price; the last is the sentinel |
| DemandCurves.DemandSorted | EUnix/EUnix/auctions/demand_curves.py:13 | demand prices do not rise along the curve |
| DemandCurves.SupplySorted | EUnix/EUnix/auctions/demand_curves.py:87 | supply prices do not fall along the curve |
| DemandCurves.QtySumPrefixIncreasing | EUnix/EUnix/auctions/demand_curves.py:88 | with positive quantities a longer prefix has a larger cumulative quantity |
| DemandCurves.CurveStepsIncrease | EUnix/EUnix/auctions/demand_curves.py:108-114 | with positive quantities a curve's x coordinates strictly increase, as the lookup assumes |
| DemandCurves.SupplyCurveExample | EUnix/EUnix/auctions/demand_curves.py:66-80 | the documented batch gives the supply curve `(0.2,1) (1.2,3) (2.9,6) (inf,inf)` |
| DemandCurves.SupplyIndexExample | EUnix/EUnix/auctions/demand_curves.py:81-82 | the documented batch gives the supply index `[2, 0, 3]` |
| DemandCurves.FirstCovering | EUnix/EUnix/auctions/demand_curves.py:136-138 | the position found is the first step whose x covers the argument |
| DemandCurves.GetValueStepwise | EUnix/EUnix/auctions/demand_curves.py:95-138 | no value for negative x; otherwise a value exactly when some step covers x, and then the price of the first covering step |
| DemandCurves.GetValueOnCurve | EUnix/EUnix/auctions/demand_curves.py:113-121 | on a curve closed at infinity every non-negative x has a value |
| DemandCurves.GetValueStepwiseExample | EUnix/EUnix/auctions/demand_curves.py:125-130 | the documented lookups give None, 1, 1, 1, 4, 4, None |
| DemandCurves.CumSum | EUnix/EUnix/auctions/demand_curves.py:170-171 | entry `k` of the running sum is the sum of the first `k + 1` entries |
| DemandCurves.ScanSellersSpec | EUnix/EUnix/auctions/demand_curves.py:174-179 | the inner scan reports the first seller from `s` on that crosses the buyer, and reports nothing exactly when none does |
| DemandCurves.ScanBuyersSpec | EUnix/EUnix/auctions/demand_curves.py:173-179 | the outer scan reports the first crossing in buyer-major order from buyer `b` on, and nothing exactly when there is none |
| DemandCurves.IntersectSmallCase | EUnix/EUnix/auctions/demand_curves.py:157-166 | one step per side with crossing prices gives the smaller quantity, the mean price and indices `0, 0` |
| DemandCurves.IntersectGeneralCase | EUnix/EUnix/auctions/demand_curves.py:169-182 | otherwise the result is absent exactly when no step pair crosses, and is the first buyer-major crossing |
| DemandCurves.IntersectPriceBetween | EUnix/EUnix/auctions/demand_curves.py:165-178 | a clearing price lies between the crossing offer's and bid's prices |
| DemandCurves.DoubleAccumulationExample | EUnix/EUnix/auctions/demand_curves.py:170-179 | bids 1@10 and 1@9 against one offer of 3@1 clear at quantity 3, price 5, buyer step 1 |
| Uniform.CreateTransaction | EUnix/mechanisms/uniform.py:60-75 | a leg carries the id, price, matched quantity and the side's leg type |
| Uniform.CreateTransactionColumns | EUnix/mechanisms/uniform.py:63-75 | a leg fills its own side's columns from the row and leaves the other side's blank |
| Uniform.OrderLegsAt | EUnix/mechanisms/uniform.py:42-52 | leg `k` of a side is the row's leg with id `id + k` and matched quantity `qs[k]` |
| Uniform.CrossingFinite | EUnix/mechanisms/uniform.py:26 | a crossing has a finite price and indices within the curves' rows |
| Uniform.ClearingPoint | EUnix/mechanisms/uniform.py:26-39 | there is no clearing exactly when the curves do not cross |
| Uniform.ClearingPointOf | EUnix/mechanisms/uniform.py:31-39 | the cleared bids and offers are the first `b + 1` and `s + 1` of each sorted side, at the crossing's price and quantity |
| Uniform.FillSum | EUnix/mechanisms/uniform.py:46-52 | when the long side holds enough, the partial fills add up to the traded quantity |
| Uniform.FillBounded | EUnix/mechanisms/uniform.py:50 | each partial fill is between 0 and its order's quantity |
| Uniform.SettleIds | EUnix/mechanisms/uniform.py:42-52 | the legs carry consecutive ids and the single clearing price |
| Uniform.PopulationSides | EUnix/mechanisms/uniform.py:31-32 | the cleared bids are buying orders and the cleared offers selling orders |
| Uniform.ClearingTraded | EUnix/mechanisms/uniform.py:34-39 | bids are the short side exactly when their total does not exceed the offers'; the traded quantity is the short side's total and no more than the long side's |
| Uniform.OrderLegsMatched | EUnix/mechanisms/uniform.py:42-52 | the matched quantities of a side's legs are the quantities it was given |
| Uniform.UniformSides | EUnix/mechanisms/uniform.py:38-52 | the ledger is the short side's legs then the long side's; short legs match their order's full quantity and have the short side's type, long legs the other type |
| Uniform.UniformBalanced | EUnix/mechanisms/uniform.py:34-52 | both sides' legs add up to the traded quantity, and no long leg exceeds its order |
| Uniform.OffersRational | EUnix/mechanisms/uniform.py:32 | no cleared offer asks more than the clearing price |
| Uniform.BidsRational | EUnix/mechanisms/uniform.py:31 | no cleared bid pays less than the clearing price unless the crossing is at the demand sentinel |
| Uniform.AddShortSide | EUnix/mechanisms/uniform.py:41-43 | the ledger grows by one full-quantity leg per short-side order, ids counting up |
| Uniform.AddLongSide | EUnix/mechanisms/uniform.py:45-52 | the ledger grows by the long side's partial fills until the traded quantity is met |
| Uniform.SettleLedger | EUnix/mechanisms/uniform.py:41-52 | a fresh ledger holding the settlement of the clearing point |
| Uniform.UniformPriceMechanism | EUnix/mechanisms/uniform.py:21-57 | the ledger and the extra value are the uniform outcome: empty ledger and empty list without a crossing, else the settlement and the clearing quantity and price |
| P2PRandom.RowPairs | EUnix/mechanisms/p2p_random.py:49-53 | a buyer's pairs are the buyer with each seller in order |
| P2PRandom.PairsOfIn | EUnix/mechanisms/p2p_random.py:48-53 | every enumerated pair is a buyer with a seller |
| P2PRandom.PairsOfDistinct | EUnix/mechanisms/p2p_random.py:48-53 | no pair is enumerated twice |
| P2PRandom.EnumeratePairs | EUnix/mechanisms/p2p_random.py:45-53 | the pair list is every buyer with every seller, buyer-major, and the matrix clears row `o` exactly in the columns of pairs involving `o` |
| P2PRandom.Where | EUnix/mechanisms/p2p_random.py:63 | the positions returned are set, as many as there are set entries |
| P2PRandom.CountMonotone | EUnix/mechanisms/p2p_random.py:60-62 | masking never raises the count of set entries, and clearing a set entry lowers it |
| P2PRandom.MaskRow | EUnix/mechanisms/p2p_random.py:68-69 | the candidate mask is and-ed with the order's row of the pair matrix |
| P2PRandom.DrawPair | EUnix/mechanisms/p2p_random.py:64-69 | the drawn pair is deactivated, candidates sharing its buyer or seller are masked, and the candidate count drops |
| P2PRandom.SelectRound | EUnix/mechanisms/p2p_random.py:61-69 | the round draws distinct available pairs with no order in two of them, deactivates exactly those, and ends with no candidate left; every pair available at its start was drawn or shares an order with a drawn pair |
| P2PRandom.SettleTrades | EUnix/mechanisms/p2p_random.py:72-75 | a round trades exactly its pairs whose bid covers the ask, at `p_coef` times the bid plus `1 - p_coef` times the ask |
| P2PRandom.SettleConserves | EUnix/mechanisms/p2p_random.py:86-87 | an order's remaining quantity is its starting quantity less what it traded in the round |
| P2PRandom.SettleNonNegative | EUnix/mechanisms/p2p_random.py:74 | from non-negative quantities, remainders and traded quantities stay non-negative |
| P2PRandom.TradeFromRound | EUnix/mechanisms/p2p_random.py:72 | every trade comes from a pair of the round |
| P2PRandom.SettleAtRoundStart | EUnix/mechanisms/p2p_random.py:74 | in a round with disjoint pairs each trade is the smaller of the two quantities held at the round's start |
| P2PRandom.LedgerAt | EUnix/mechanisms/p2p_random.py:78-89 | trade `k` is written as legs `2k` and `2k + 1`, with id `id + k` |
| P2PRandom.SettlePairs | EUnix/mechanisms/p2p_random.py:72-89 | the quantities and the ledger after a round are those of the round's settlement |
| P2PRandom.CandidatesSided | EUnix/mechanisms/p2p_random.py:48-53 | every candidate pair is a bid with an offer, each listed once |
| P2PRandom.ExhaustedComplete | EUnix/mechanisms/p2p_random.py:95-96 | every order of the side with zero quantity is listed as inactive |
| P2PRandom.InactiveCover | EUnix/mechanisms/p2p_random.py:95-100 | a pair escapes the inactivity mask exactly when both its orders hold non-zero quantity |
| P2PRandom.Reactivate | EUnix/mechanisms/p2p_random.py:98-100 | the candidates for the next round are the untried pairs whose orders both hold quantity |
| P2PRandom.ReplayConserves | EUnix/mechanisms/p2p_random.py:60-100 | over all rounds an order's remainder is its quantity less what it traded |
| P2PRandom.ReplayNonNegative | EUnix/mechanisms/p2p_random.py:60-100 | over all rounds no remainder and no trade becomes negative |
| P2PRandom.ReplayTrades | EUnix/mechanisms/p2p_random.py:60-100 | every trade of the run has a covering bid and the blended price |
| P2PRandom.RunStateEnd | EUnix/mechanisms/p2p_random.py:60 | when the loop stops, no quantity is left or every pair was tried or has an exhausted order |
| P2PRandom.PlayRound | EUnix/mechanisms/p2p_random.py:61-100 | one round draws, settles and reactivates, strictly lowers the number of untried pairs, and is maximal among the pairs eligible at its start |
| P2PRandom.MaximalStep | EUnix/mechanisms/p2p_random.py:60-69 | a round maximal among the pairs eligible in a run's state extends the per-round maximality of the run |
| P2PRandom.PlayRounds | EUnix/mechanisms/p2p_random.py:60-100 | the loop keeps the run invariant and the maximality of every round, and ends with no quantity or no candidate |
| P2PRandom.P2PRandomMechanism | EUnix/mechanisms/p2p_random.py:21-103 | the rounds are disjoint, never repeat a pair and draw only candidates; quantities and ledger are their replay; the extra value is the trading list; every round left no pair eligible at its start both undrawn and sharing no order with it; and the run stops only when no quantity or no live untried pair is left |
| HhcMechanism.MarketLayout | energy_market/EUnix/mechanisms/hhcMechanism.py:18-23 | the layout has one row per order, all bids before all offers |
| HhcMechanism.ClusterMembers | energy_market/EUnix/mechanisms/hhcMechanism.py:35-37 | a row is a cluster's buyer or seller exactly when it has the cluster's label and that side |
| HhcMechanism.ClusterOrder | energy_market/EUnix/mechanisms/hhcMechanism.py:36-37 | a cluster's buyers come by falling price and its sellers by rising price |
| HhcMechanism.LedgerAt | energy_market/EUnix/mechanisms/hhcMechanism.py:45-57 | match `k` is written as legs `2k` and `2k + 1` at the seller's price |
| HhcMechanism.BuyerPassSound | energy_market/EUnix/mechanisms/hhcMechanism.py:39-42 | each match is with a seller of the cluster whose ask the bid covers, for a positive quantity |
| HhcMechanism.BuyerPassConserves | energy_market/EUnix/mechanisms/hhcMechanism.py:41-54 | a buyer never trades more than it held |
| HhcMechanism.BuyerPassIdle | energy_market/EUnix/mechanisms/hhcMechanism.py:41 | a buyer with nothing left makes no match |
| HhcMechanism.ClusterPassIdle | energy_market/EUnix/mechanisms/hhcMechanism.py:39-40 | a cluster without buyers or without sellers makes no match |
| HhcMechanism.HhcMatchesSound | energy_market/EUnix/mechanisms/hhcMechanism.py:63-64 | every match is within one cluster below `n_cluster`, a bid against an offer it covers |
| HhcMechanism.SellerOversold | energy_market/EUnix/mechanisms/hhcMechanism.py:55 | as written, two buyers of 1 against one offer of 1 buy 2 from it |
| HhcMechanism.KeptConserves | energy_market/EUnix/mechanisms/hhcMechanism.py:54-55 | with both reductions kept, each order's remainder plus what it traded is its quantity, and no order trades more than it holds |
| HhcMechanism.SellerSoldOnce | energy_market/EUnix/mechanisms/hhcMechanism.py:54-55 | with both reductions kept, the same batch sells the offer once |
| HhcMechanism.MatchBuyer | energy_market/EUnix/mechanisms/hhcMechanism.py:39-57 | one buyer's loop writes the legs of its as-written matches |
| HhcMechanism.MatchCluster | energy_market/EUnix/mechanisms/hhcMechanism.py:34-59 | one cluster's loop writes the legs of its as-written matches |
| HhcMechanism.HhcClearingMechanism | energy_market/EUnix/mechanisms/hhcMechanism.py:9-74 | the ledger is that of the as-written matches over clusters `0..n_cluster-1`, and the extra value echoes the batch |
| HhcMechanism.KeptMatchBuyer | energy_market/EUnix/mechanisms/hhcMechanism.py:39-57 | one buyer's loop with both reductions kept updates the remaining quantities and writes the legs of its matches |
| HhcMechanism.HhcClearingKept | energy_market/EUnix/mechanisms/hhcMechanism.py:9-74 | the ledger is that of the matches with both reductions kept, so with positive quantities no order trades more than it holds |
| Process.IdGenerator.NewPlayerId | EUnix/auctions/process.py:10-14 | the counter restarts at the given start |
| Process.IdGenerator.AssignId | EUnix/auctions/process.py:16-21 | a group of one keeps its user's id; a larger group takes the counter's value and the counter moves on |
| Process.IdExample | EUnix/EUnix/auctions/process.py:30-38 | from 6, the groups `[3]`, `[5]`, `[0,1]`, `[2,4]` get 3, 5, 6, 7 |
| Process.KeyRowsComplete | EUnix/auctions/process.py:55-56 | every row of the side with that rounded price falls in the price's group |
| Process.SortedKeysSpec | EUnix/auctions/process.py:56 | the groups' prices are the distinct rounded prices, strictly increasing |
| Process.SideGroupsShape | EUnix/auctions/process.py:53-56 | a side's groups come by rising rounded price, and each holds rows of that side with that rounded price |
| Process.SideGroupsNonEmpty | EUnix/auctions/process.py:56 | every group holds at least one row of the batch |
| Process.SideGroupsCover | EUnix/auctions/process.py:53-56 | every row of the side is in the group of its rounded price |
| Process.SplitQty | EUnix/auctions/process.py:47 | a row set's quantity is that of its rows with one key plus that of the rest |
| Process.SideQuantity | EUnix/auctions/process.py:47-56 | a side's groups together carry exactly the side's total quantity |
| Process.NewIdsSpec | EUnix/auctions/process.py:59 | single-row groups keep their user; the `i`-th multi-row group gets the start plus the number of multi-row groups before it; the counter advances by their number |
| Process.FreshIds | EUnix/auctions/process.py:30-59 | new ids are at least the start and strictly increase, so none is reused |
| Process.StartId | EUnix/auctions/process.py:30 | the start id is one more than some user id of a non-empty batch and above every user id, so it is the maximum plus one, negative ids included |
| Process.MergedRow | EUnix/auctions/process.py:44-51 | a merged row has the group's user, rounded price and summed quantity |
| Process.MergedTable | EUnix/auctions/process.py:53-71 | the merged table has one row per group, buyers' groups then sellers', each at the group's price with its summed quantity |
| Process.MergeSide | EUnix/auctions/process.py:55-65 | one side's rows are built with the ids the counter hands out |
| Process.MergeTable | EUnix/auctions/process.py:30-71 | the merged table, with the counter advanced by the number of multi-row groups |
| Process.Enumerate | EUnix/auctions/process.py:62-63 | positions `0..n-1` map to the groups' rows, overwriting; other keys are kept |
| Process.EnumerateGroups | EUnix/auctions/process.py:62-63 | the loop's mapping is that enumeration |
| Process.MergeSamePrice | EUnix/auctions/process.py:26-73 | the merged table, the per-side mapping and the advanced counter |
| Process.PerSideOverwrite | EUnix/auctions/process.py:53-63 | the mapping has keys up to the larger side's group count; the sellers' groups overwrite the buyers' at shared positions |
| Process.MappingCollision | EUnix/auctions/process.py:62-63 | a bid at 1 and an offer at 2 give mapping `{0: [1]}`, while merged row 0 is the bid |
| Process.GroupRowsDistinct | EUnix/auctions/process.py:53-56 | a group lists rows of the batch, each once |
| Process.PerSideMappingRows | EUnix/auctions/process.py:62-63 | every entry of the per-side mapping lists rows of the batch, each once |
| Process.MergedMappingRows | EUnix/EUnix/auctions/process.py:128-129 | every entry of the position-keyed mapping lists rows of the batch, each once |
| Process.MergedMappingPartition | EUnix/EUnix/auctions/process.py:128-129 | with the concatenated enumeration every original row is in exactly one merged row, of its side and rounded price, and each merged row's quantity is its rows' total |
| Process.LegacyMergeSamePrice | EUnix/EUnix/auctions/process.py:79-140 | the legacy merge gives the merged table with sampled columns and the concatenated mapping |
| Processing.SplitLeg | EUnix/transactions/processing.py:20-38 | one leg per original row in mapping order, a copy of the leg except for its bid and quantity; an unmapped leg gives none |
| Processing.SharesAddUp | EUnix/transactions/processing.py:24-25 | shares proportional to the quantities add up to the whole |
| Processing.SplitLegConserves | EUnix/transactions/processing.py:24-38 | the split legs' quantities add up to the merged leg's quantity |
| Processing.SingletonSplit | EUnix/transactions/processing.py:24-38 | a leg mapped to one row is that leg with the row as its bid |
| Processing.DocExample | EUnix/EUnix/transactions/processing.py:17-18 | a leg of 2 mapped to rows of 1 and 3 splits into 0.5 and 1.5 |
| Processing.SplitAllConserves | EUnix/transactions/processing.py:19-45 | the split ledger's quantity is the quantity of the mapped legs |
| Processing.AssignSharesSpec | EUnix/transactions/processing.py:32-43 | each original user gets the fee times their share; other entries are unchanged |
| Processing.SharesTotal | EUnix/transactions/processing.py:41-43 | the shares booked for a group add up to the fee |
| Processing.FeeStepShares | EUnix/transactions/processing.py:28-43 | a merged user's fee is removed and shared among the group's users in proportion to quantity, adding up to the fee |
| Processing.FeeBook.Pop | EUnix/transactions/processing.py:30 | pop returns the user's fee, or nothing when absent, and removes the entry |
| Processing.SplitOne | EUnix/transactions/processing.py:19-45 | one leg's loop gives its split legs and books the fee shares |
| Processing.SplitTransactionsMergedPlayers | EUnix/transactions/processing.py:13-47 | the split ledger, with the fee book returned exactly when one was passed |
| MechanismAdapter.OneSidedCount | EUnix/mechanisms/mechanism.py:42-44 | the bid count is 0 or N exactly when every order is on one side |
| MechanismAdapter.Mechanism.constructor | EUnix/mechanisms/mechanism.py:15-23 | the mechanism stores the algorithm and the batch, merged when `merge` is set |
| MechanismAdapter.Mechanism.SanitizeBids | EUnix/mechanisms/mechanism.py:25-37 | with `merge`, the original batch and the mapping are recorded and the merged batch returned; otherwise the batch is returned unchanged |
| MechanismAdapter.Mechanism.RunAlgo | EUnix/mechanisms/mechanism.py:39-51 | a one-sided batch gives an empty ledger and empty extra without the algorithm; any other gets the algorithm's answer |
| MechanismAdapter.Mechanism.Cleanup | EUnix/mechanisms/mechanism.py:53-62 | without `merge` the ledger is unchanged; with it the cleanup fails |
| MechanismAdapter.Mechanism.Run | EUnix/mechanisms/mechanism.py:64-70 | a run fails with `merge`; otherwise it is the algorithm's outcome or the empty one |
| MechanismAdapter.BuildAndRun | EUnix/mechanisms/mechanism.py:15-70 | building and running a mechanism gives that same outcome |
| MechanismAdapter.UniformPrice | EUnix/mechanisms/uniform.py:78-82 | the uniform-price mechanism through the adapter gives the uniform outcome, or the empty one for a one-sided batch |

## Left out

- `get_df` of the order and transaction books: it only renders a table. The
  model's batches are sequences of `Order`, and its ledgers are sequences of
  `Leg`.
- `energy_market/EUnix/mechanisms/hhcMechanism.py`'s clustering: the
  agglomerative clustering library is not part of this model. The labels
  are an input.
- Sorting by price: the source's sort is not stable. The model uses a
  stable insertion sort, so the order among equal prices may differ.
- Randomness: `r.choice` and `x.sample(1)` are not modelled as a generator.
  The choice is the draw stream `draw`, reduced modulo the candidates.
- Transaction ids: uuids are modelled as consecutive counter values.
- `Process.StartId`: the model does not reproduce the NaN start for an empty
  batch.
- `Process.LegacyMergeSamePrice`: the sampled columns are modelled as a
  choice of one group member by `draw`, not the library's sample order.
- `MechanismAdapter.Mechanism.constructor`: the same-price merge is a
  parameter, because the aggregation works on a different column schema
  (`user, price, quantity, buying`) from the order table. With `merge`, an
  order table from `OrderManager` has a `User` column and no `user`, so
  the constructor already fails at `df.user.max()`
  (EUnix/auctions/process.py:30). That is before the cleanup reads the
  attribute `old_bids`, which the constructor never sets. The model
  reaches the failure only at the cleanup: `Run` with `merge` gives
  `None`.
- `MechanismAdapter.Mechanism.constructor`: the extra `args` and `kwargs`
  are bound into the algorithm value.
- `MechanismAdapter`: only the uniform-price mechanism is wired through the
  adapter. The pairwise and cluster mechanisms are methods over arrays and
  objects, not function values, so `P2PTrading` and `hhcMechanism` are not
  modelled as adapter subclasses.
- `Processing.SplitTransactionsMergedPlayers`: the precondition `Splittable`
  asks three things of every mapped entry. First, its rows exist; the
  source's `bids.iloc[original_rows]` fails otherwise. Second, no row is
  listed twice; otherwise `proportions[row_idx]` is a Series, not a number.
  Third, rows that total zero or less are excluded; there the source's
  share is the scalar 0, and indexing it fails. The mappings that
  `merge_same_price` produces meet the first two conditions
  (`Process.PerSideMappingRows`, `Process.MergedMappingRows`).
- `Processing.SplitTransactionsMergedPlayers`: the model follows the
  six-column leg schema the function was written for
  (`bid, quantity, price, source, active, user`). As written, the function
  fails on this repository's ledgers. `TransactionManager.get_df()` has the
  18 capitalised columns of EUnix/transactions/transactions.py:15-20
  (`Trans_id`, `Buyer`, ..., `Bid_id`, ...). It has no `bid`, `quantity`
  or `user` column, so `t.bid` at EUnix/transactions/processing.py:20 fails
  on any non-empty ledger. For example, one leg with mapping `{0: [0]}`
  fails there, where the model returns the split ledger.
- `Processing.FeeStepShares`: the sum of the booked shares is stated only
  for a group whose users are distinct. With a repeated user, later shares
  overwrite earlier ones.
- `Processing.SplitLeg`: the shares are indexed by row label. The model
  assumes labels equal positions (a range index).
- `HhcMechanism.HhcClearingMechanism`: the as-written method is kept beside
  the corrected `HhcMechanism.HhcClearingKept`.
- `DemandCurves.IntersectStepwise`: the re-accumulation of already
  cumulative quantities is modelled as written; no corrected variant is
  given.
- Floating point: prices and quantities are exact reals, so rounding error
  and `inf - inf` are not modelled.

## Findings

| source | as written | input that shows it | evidently intended | confidence | as-written member | corrected member |
|---|---|---|---|---|---|---|
| energy_market/EUnix/mechanisms/hhcMechanism.py:55 | the seller's reduction lands on a fresh row copy for each buyer, so every buyer sees the seller's original quantity | one cluster with two bids of 1 at price 5 and one offer of 1 at price 1: the offer sells 2 | a seller's remaining quantity carries over from buyer to buyer, as the buyer's does from seller to seller | not executed | HhcMechanism.SellerOversold | HhcMechanism.KeptConserves |
| EUnix/auctions/process.py:62-63 | the mapping is enumerated per side, so the sellers' groups overwrite the buyers' at keys `0, 1, ...` | a bid at 1 and an offer at 2: mapping `{0: [1]}`, while merged row 0 is the bid | keys are merged-table positions, buyers' groups then sellers', as in the legacy `final_maping` | not executed | Process.MappingCollision | Process.MergedMappingPartition |
