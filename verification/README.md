# OrderBook-Aggregator: a verified model of the order-book core

This project models the core of OrderBook-Aggregator, a C++ tool that
merges limit-order-book snapshots from several exchanges into one book and
prices a buy and a sell of a given size against it. It has three modules.

- `DoubleUtils` (`double_utils.dfy`, from `double_utils.h`) holds the
  tolerance `TOLERANCE = 1e-9` and the absolute-tolerance comparison
  `doubleEquals`.
- `OrderBookLedger` (`order_book.dfy`, from `order_book.cpp`) holds the
  class `OrderBook`. It has two price -> quantity maps. `bids` iterates
  highest price first and `asks` iterates lowest price first. The class
  covers:
  - accumulating adds at a price;
  - depth;
  - liquidity over the best N levels;
  - the spread;
  - the greedy liquidity walk `calculatePriceFromMap` and its `-1.0`
    sentinel;
  - `getBestPrice`.
- `Aggregator` (`aggregator.dfy`, from `orderbook_aggregator.cpp`) holds
  `aggregateOrderBooks` and the buy/sell reporting rule of `main`.
  - The merge starts from an empty `OrderBook`. For every exchange whose
    fetch and normalise succeeded, it calls `AddBid` for each bid level
    and `AddAsk` for each ask level.
  - The fetch itself is an input: one `Outcome` per exchange, `Ok(book)`
    or `Failed`.

Prices and quantities are mathematical reals. A side is a Dafny `map`.
The order in which the C++ `std::map` visits a side is given by
`SortedKeys`/`Levels`: strictly descending for bids, strictly ascending for
asks. Each loop is proved against a recursive specification function:

| loop | specification function |
|---|---|
| `SumBestLevels` | `TotalQuantity` of a prefix of `Levels` |
| `WalkLevels` | `Walk` |
| `AggregateOrderBooks` | `Merged`, a left fold of pointwise sums `Plus` |

Lemmas then prove what the code promises about those functions.

Notable behaviour of the code, which the model follows:

- The walk signals "insufficient liquidity" with the number `-1.0`, not
  with a separate marker. Only `main` turns a result `<= 0` into the text
  "insufficient liquidity" (`Aggregator.Report`).
- An empty side counts as price 0 in `getSpread`. So with bids empty and
  asks present, the spread is the best ask, not 0.
- Adds do not check that quantities are non-negative. Zero-quantity levels
  are kept and count towards depth.
- Exchanges are fetched one after another. An exchange whose fetch or
  normalise throws is skipped, and no failure list is kept.
- As the exchanges are written, that rarely happens, and an exchange's
  result is not all-or-nothing:
  - `RestClient::Get` (`rest_client.h`) only logs a failed request and
    parses the body without throwing.
  - Each normaliser (`exchanges.cpp`) catches its own errors and returns
    the levels it read before the error.
  - So an unreachable or malformed exchange usually reaches the merge as
    `Ok` with an empty or partial book, not as `Failed`. The model allows
    this: `Ok` carries any book.
- On an empty side, `-1.0` is returned only for `quantity > 1e-9`. For
  `0 < quantity <= 1e-9` the walk fills nothing, `doubleEquals(0, quantity)`
  holds, and the result is `0 / quantity = 0.0`.
  - `main` still prints "insufficient liquidity" for this result, because
    it only prints prices `> 0`.
  - `Aggregator.AllFailedQuotes` proves both facts.

## Model

| member | source | states |
|---|---|---|
| DoubleUtils.DoubleEquals | double_utils.h:8-10 | true exactly when `a` lies within `tolerance` of `b` on either side |
| DoubleUtils.DoubleEqualsReflexive | double_utils.h:9 | for a non-negative tolerance every value equals itself |
| DoubleUtils.DoubleEqualsSymmetric | double_utils.h:9 | swapping the arguments never changes the answer |
| DoubleUtils.DoubleEqualsMonotone | double_utils.h:9 | an equality at one tolerance stays an equality at any wider tolerance |
| OrderBookLedger.Accumulate | order_book.cpp:32 | `side[price] += quantity`: the key set gains `price`; the new quantity is the old one (0 if absent) plus `quantity`; every other level is unchanged; the size grows by one exactly when `price` was new |
| OrderBookLedger.AccumulateTwice | order_book.cpp:31-33 | adding `q1` and then `q2` at a price equals adding `q1 + q2` once |
| OrderBookLedger.SortedKeys | order_book.cpp:24-25 | the iteration order lists every key exactly once, strictly best first in the side's direction |
| OrderBookLedger.Levels | order_book.cpp:24-29 | a side iterates exactly as many levels as it has keys |
| OrderBookLedger.LevelsEntries | order_book.cpp:24-29 | every iterated level is an entry of the map with that entry's quantity, and levels come strictly best price first |
| OrderBookLedger.LevelsCover | order_book.cpp:24-29 | every price of the map is visited by the iteration |
| OrderBookLedger.TopOfBook | order_book.cpp:102-103 | 0 for an empty side, otherwise the side's best price: a key that comes before every other key |
| OrderBookLedger.OrderBook.constructor | orderbook_aggregator.cpp:17 | a new book has no bids and no asks |
| OrderBookLedger.OrderBook.AddBid | order_book.cpp:31-33 | bids become the accumulate of the old bids at `price`; asks are unchanged; bid depth grows by 1 for a new price and by 0 for an existing one |
| OrderBookLedger.OrderBook.AddAsk | order_book.cpp:35-37 | asks become the accumulate of the old asks at `price`; bids are unchanged; ask depth grows by 1 for a new price and by 0 for an existing one |
| OrderBookLedger.OrderBook.BidDepth | order_book.cpp:39-41 | the bid depth is the number of bid levels iterated |
| OrderBookLedger.OrderBook.AskDepth | order_book.cpp:43-45 | the ask depth is the number of ask levels iterated |
| OrderBookLedger.CountedLevels | order_book.cpp:47-58 | the liquidity loop sums all levels for -1, `min(levels, depth)` for `levels >= 1`, and one level (none on an empty side) for any other value, because the stop test runs after the first addition |
| OrderBookLedger.SumBestLevels | order_book.cpp:47-58 | the liquidity loop returns the sum of the quantities of the first `CountedLevels(levels, depth)` levels in iteration order |
| OrderBookLedger.OrderBook.TotalBidLiquidity | order_book.cpp:47-58 | sum of quantities over the counted highest-priced bid levels; 0 on an empty side |
| OrderBookLedger.OrderBook.TotalAskLiquidity | order_book.cpp:60-71 | sum of quantities over the counted lowest-priced ask levels; 0 on an empty side |
| OrderBookLedger.TotalQuantityAppend | order_book.cpp:50-51 | liquidity is additive over consecutive runs of levels |
| OrderBookLedger.TotalQuantity | order_book.cpp:48-51 | the liquidity of a run of levels, summed in iteration order; non-negative when every quantity is |
| OrderBookLedger.PrefixLiquidityMonotone | order_book.cpp:47-58 | with non-negative quantities, counting more best levels never gives less liquidity, and never more than the whole side |
| OrderBookLedger.Min | order_book.cpp:82 | `std::min`: at most both arguments and equal to one of them |
| OrderBookLedger.Walk | order_book.cpp:75-87 | defines the greedy fill: at each level, while something remains, take `min(available, remaining)` and pay for it at the level's price; its properties are the lemmas below |
| OrderBookLedger.WalkStep | order_book.cpp:79-86 | while something remains, one more level adds `min(available, remaining)` to the filled quantity, that amount times the price to the cost, and subtracts it from what remains |
| OrderBookLedger.WalkStops | order_book.cpp:79 | once nothing remains to fill, later levels change neither the filled quantity nor the cost |
| OrderBookLedger.WalkLevels | order_book.cpp:75-87 | the loop returns the filled quantity and cost of the greedy best-first fill; its invariants keep `totalQty + remaining == quantity` and `remaining >= 0` for non-negative requests |
| OrderBookLedger.WalkPrice | order_book.cpp:89-93 | calculatePriceFromMap's result: -1.0 whenever the filled quantity differs from the request by more than `TOLERANCE`, otherwise the cost divided by the quantity (see WalkPriceSentinel) |
| OrderBookLedger.WalkFilled | order_book.cpp:79-87 | with non-negative quantities the walk fills exactly `min(quantity, total liquidity)`, and filled plus remaining is the request |
| OrderBookLedger.WalkCostAtLeast | order_book.cpp:84 | if every visited price is at least `lo`, the cost is at least `lo` times the filled quantity |
| OrderBookLedger.WalkCostAtMost | order_book.cpp:84 | if every visited price is at most `hi`, the cost is at most `hi` times the filled quantity |
| OrderBookLedger.WalkCostPositive | order_book.cpp:84 | with positive prices, a walk that fills anything pays a positive amount |
| OrderBookLedger.WalkCostZero | order_book.cpp:84 | a walk that fills nothing pays nothing |
| OrderBookLedger.WalkPriceSentinel | order_book.cpp:89-93 | for `quantity > 0`: -1.0 when the side holds less than `quantity - TOLERANCE`, otherwise cost divided by quantity; a side holding the whole request fills it exactly |
| OrderBookLedger.WalkPriceSentinelIff | order_book.cpp:89-90 | with non-negative prices, the result is -1.0 if and only if the side holds less than `quantity - TOLERANCE` |
| OrderBookLedger.CostPerUnitWithin | order_book.cpp:84-92 | a walk that fills the whole request pays per unit between the lowest and highest price it could visit |
| OrderBookLedger.WalkPriceWithin | order_book.cpp:73-94 | a fully filled walk's average price lies between the lowest and highest price it could visit |
| OrderBookLedger.EmptySideWalk | order_book.cpp:89-93 | on an empty side the walk returns -1.0 for `quantity > TOLERANCE` and 0.0 for `0 < quantity <= TOLERANCE` |
| OrderBookLedger.ExampleAskWalk | order_book.cpp:73-94 | asks {100: 2, 101: 3}: buying 4 averages 100.5; buying 10 gives -1.0 |
| OrderBookLedger.OrderBook.PriceFromMap | order_book.cpp:73-94 | calculatePriceFromMap returns the walk's price over the map in its iteration order, or -1.0 |
| OrderBookLedger.OrderBook.GetBestPrice | order_book.cpp:97-99 | a buy walks the asks lowest price first; a sell walks the bids highest price first |
| OrderBookLedger.OrderBook.Spread | order_book.cpp:101-105 | best ask minus best bid, an empty side counting as 0: 0 when both sides are empty; the lowest ask when only bids are empty; minus the highest bid when only asks are empty; with both sides present it is some ask minus some bid and at most every ask minus every bid, so exactly lowest ask minus highest bid, and it is non-negative exactly when no bid exceeds any ask |
| OrderBookLedger.WalkBetweenEnds | order_book.cpp:73-94 | over levels sorted best first, a fully filled average is never better than the first level's price nor worse than the last level's |
| OrderBookLedger.WalkNeverBeatsTopOfBook | order_book.cpp:79-99 | a fully filled buy pays on average at least the best ask and a sell receives at most the best bid |
| Aggregator.Merged | orderbook_aggregator.cpp:17-40 | one side of the merged book after the exchanges in order, starting empty, failed ones skipped; its prices are the union of the successful books' prices |
| Aggregator.Plus | orderbook_aggregator.cpp:28-34 | merging a side gives the union of the prices with the quantities added pointwise |
| Aggregator.AddLevels | orderbook_aggregator.cpp:28-34 | a side after addBid/addAsk of each level in order; its prices are the old prices plus exactly the levels' prices |
| Aggregator.AddLevelsAt | orderbook_aggregator.cpp:28-34 | adding levels one by one adds, at each price, the total quantity the levels list there |
| Aggregator.LevelsDistinct | order_book.cpp:24-25 | a side never iterates the same price twice |
| Aggregator.LevelsQuantityAt | order_book.cpp:24-25 | the iterated levels of a side list, at each price, exactly that side's quantity |
| Aggregator.LevelsPriceSet | order_book.cpp:24-25 | the iterated levels of a side list exactly that side's prices |
| Aggregator.AddLevelsOfSide | orderbook_aggregator.cpp:28-34 | adding a book's levels one by one in iteration order is the pointwise sum with that book's side |
| Aggregator.AddBidLevels | orderbook_aggregator.cpp:28-30 | the bid loop leaves the merged bids equal to the old bids with every level added in order, and leaves the asks unchanged |
| Aggregator.AddAskLevels | orderbook_aggregator.cpp:32-34 | the ask loop leaves the merged asks equal to the old asks with every level added in order, and leaves the bids unchanged |
| Aggregator.AddBook | orderbook_aggregator.cpp:28-34 | merging one successful exchange adds its bids pointwise into the merged bids and its asks pointwise into the merged asks |
| Aggregator.AggregateOrderBooks | orderbook_aggregator.cpp:16-46 | returns a new book whose bids and asks are the fold, in exchange order, of pointwise sums over the books of successful exchanges, failed ones skipped |
| Aggregator.MergedAt | orderbook_aggregator.cpp:17-34 | the merged quantity at each price is the sum of that price's quantity over the successful books |
| Aggregator.MergedDepthBound | orderbook_aggregator.cpp:28-34 | the merged depth is at most the sum of the successful books' depths |
| Aggregator.MergeAppend | orderbook_aggregator.cpp:18-40 | merging two runs of exchanges one after the other is the pointwise sum of their merges |
| Aggregator.FailedContributesNothing | orderbook_aggregator.cpp:18-39 | a failed exchange anywhere in the list contributes nothing, and the exchanges after it are still merged |
| Aggregator.MergedMoveToFront | orderbook_aggregator.cpp:18-40 | moving one exchange to the front of the list leaves the merge unchanged |
| Aggregator.MergedPermutation | orderbook_aggregator.cpp:18-40 | any reordering of the exchange list gives the same merged book |
| Aggregator.AllFailedEmpty | orderbook_aggregator.cpp:17-45 | if every exchange fails, the merged side is empty |
| Aggregator.MergedNonNegative | orderbook_aggregator.cpp:28-34 | books with non-negative quantities merge into a book with non-negative quantities |
| Aggregator.Report | orderbook_aggregator.cpp:75-78 | a result is printed as a price exactly when it is strictly positive, otherwise as insufficient liquidity |
| Aggregator.QuoteBothSides | orderbook_aggregator.cpp:70-78 | main merges the exchanges, prices a buy by walking the merged asks and a sell by walking the merged bids, and reports each |
| Aggregator.ReportInsufficientIff | orderbook_aggregator.cpp:72-78 | with positive prices and non-negative quantities, main reports insufficient liquidity exactly when the side holds less than `quantity - TOLERANCE` or nothing at all |
| Aggregator.AllFailedQuotes | orderbook_aggregator.cpp:72-78 | when every exchange fails: depth 0 on both sides; both walks return -1.0 for `quantity > TOLERANCE`; both sides are reported as insufficient liquidity for every positive quantity |

## Left out

- Fetching, JSON parsing and per-exchange normalisation are not part of this model. This covers `exchanges.cpp` and the HTTP client in `rest_client.h`. Each exchange's result is the input `Outcome`.
- `thread_utils.h` is not part of this model. The aggregator does not use it: it fetches exchanges one after another.
- Console output is not modelled: `printOrderBook`, the debug prints in `aggregateOrderBooks`, the error messages and the text `main` prints.
- Argument parsing in `main` is not modelled: the default quantity 10, the argument-count check and `stod`. The quantity is a parameter.
- The `Order` struct is not modelled. Nothing in the core uses it.
- IEEE-754 doubles are modelled as exact reals. There is no rounding, infinity or NaN. The tolerance check is therefore exact, and only its boundary matters.
- OrderBookLedger.OrderBook.PriceFromMap: requires `quantity != 0`. For 0 the C++ computes 0/0, which is NaN.
- OrderBookLedger.OrderBook.GetBestPrice: requires `quantity != 0` for the same reason.
- Aggregator.QuoteBothSides: requires `quantity != 0` for the same reason.
- OrderBookLedger.OrderBook.BidDepth: returns an unbounded `nat`. The narrowing of `size()` to `int` is not modelled. AskDepth is the same.
- The walk lemmas assume non-negative quantities, and some assume positive prices. The add methods do not require either, just as the C++ does not check them.
