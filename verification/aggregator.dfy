/**
 * The cross-exchange merge and the buy/sell reporting rule
 * (orderbook_aggregator.cpp).
 *
 * Fetching and normalising an exchange's book is outside the model: each
 * exchange contributes an `Outcome`, either the normalised book or
 * `Failed` when fetchOrderBook or normalizeOrderBook threw. As the
 * exchanges are written, both rarely throw: a failed request is only logged
 * and its body parsed without throwing, and each normaliser catches its own
 * errors and returns the levels read so far, so an unreachable or malformed
 * exchange usually arrives as `Ok` with an empty or partial book.
 */
module Aggregator {
  import opened DoubleUtils
  import opened OrderBookLedger

  /** A normalised book as plain price -> quantity maps. */
  datatype Snapshot = Snapshot(bids: map<real, real>, asks: map<real, real>)

  /** What fetch followed by normalise produced for one exchange. */
  datatype Outcome = Ok(book: Snapshot) | Failed

  datatype Side = BidSide | AskSide

  function SideOf(book: Snapshot, side: Side): map<real, real>
  {
    match side
    case BidSide => book.bids
    case AskSide => book.asks
  }

  /** Pointwise sum of two sides: every price of either, with the quantities added. */
  function Plus(a: map<real, real>, b: map<real, real>): (r: map<real, real>)
    ensures r.Keys == a.Keys + b.Keys
    ensures forall p :: Get(r, p) == Get(a, p) + Get(b, p)
  {
    map p | p in a.Keys + b.Keys :: Get(a, p) + Get(b, p)
  }

  lemma SameEntries(a: map<real, real>, b: map<real, real>)
    requires a.Keys == b.Keys
    requires forall p :: Get(a, p) == Get(b, p)
    ensures a == b
  {
    forall p | p in a ensures a[p] == b[p] {
      assert Get(a, p) == Get(b, p);
    }
  }

  /**
   * One side of the merged book after the exchanges of `outcomes` have been
   * processed in order, starting from an empty book: a failed exchange is
   * skipped, a successful one has every level of its side added in.
   */
  function Merged(outcomes: seq<Outcome>, side: Side): (r: map<real, real>)
    ensures r.Keys == KeyUnion(outcomes, side)
  {
    if outcomes == [] then map[]
    else
      var before := Merged(outcomes[..|outcomes| - 1], side);
      match outcomes[|outcomes| - 1]
      case Failed => before
      case Ok(book) => Plus(before, SideOf(book, side))
  }

  // ---------------------------------------------------------------------------
  // Adding a book's levels one by one
  // ---------------------------------------------------------------------------

  /** `acc` after addBid/addAsk of every level of `levels`, in order. */
  function AddLevels(acc: map<real, real>, levels: seq<Level>): (r: map<real, real>)
    ensures r.Keys == acc.Keys + PriceSet(levels)
  {
    if levels == [] then acc
    else
      var last := levels[|levels| - 1];
      Accumulate(AddLevels(acc, levels[..|levels| - 1]), last.price, last.quantity)
  }

  /** The prices that occur in `levels`. */
  function PriceSet(levels: seq<Level>): set<real>
  {
    if levels == [] then {}
    else PriceSet(levels[..|levels| - 1]) + {levels[|levels| - 1].price}
  }

  lemma {:induction false} PriceSetMembers(levels: seq<Level>, price: real)
    ensures price in PriceSet(levels) <==> exists i :: 0 <= i < |levels| && levels[i].price == price
  {
    if levels != [] {
      var prefix := levels[..|levels| - 1];
      PriceSetMembers(prefix, price);
      if price in PriceSet(prefix) {
        var i :| 0 <= i < |prefix| && prefix[i].price == price;
        assert levels[i].price == price;
      }
      if i :| 0 <= i < |levels| && levels[i].price == price {
        if i < |prefix| {
          assert prefix[i].price == price;
        }
      }
    }
  }

  /** The total quantity `levels` lists at `price`. */
  function QuantityAt(levels: seq<Level>, price: real): real
  {
    if levels == [] then 0.0
    else
      var last := levels[|levels| - 1];
      QuantityAt(levels[..|levels| - 1], price) + (if last.price == price then last.quantity else 0.0)
  }

  /** Adding levels one by one adds, at each price, what the levels list there. */
  lemma {:induction false} AddLevelsAt(acc: map<real, real>, levels: seq<Level>, price: real)
    ensures Get(AddLevels(acc, levels), price) == Get(acc, price) + QuantityAt(levels, price)
  {
    if levels != [] {
      var prefix, last := levels[..|levels| - 1], levels[|levels| - 1];
      AddLevelsAt(acc, prefix, price);
      var before := AddLevels(acc, prefix);
      if price != last.price {
        assert Get(Accumulate(before, last.price, last.quantity), price) == Get(before, price);
      }
    }
  }

  predicate DistinctPrices(levels: seq<Level>)
  {
    forall i, j :: 0 <= i < j < |levels| ==> levels[i].price != levels[j].price
  }

  lemma {:induction false} QuantityAtDistinct(levels: seq<Level>, price: real)
    requires DistinctPrices(levels)
    ensures forall i :: 0 <= i < |levels| && levels[i].price == price ==> QuantityAt(levels, price) == levels[i].quantity
    ensures (forall i :: 0 <= i < |levels| ==> levels[i].price != price) ==> QuantityAt(levels, price) == 0.0
  {
    if levels != [] {
      var prefix := levels[..|levels| - 1];
      QuantityAtDistinct(prefix, price);
      assert forall i :: 0 <= i < |prefix| ==> prefix[i] == levels[i];
    }
  }

  lemma LevelsDistinct(side: map<real, real>, dir: Direction)
    ensures DistinctPrices(Levels(side, dir))
  {
    var ls := Levels(side, dir);
    LevelsEntries(side, dir);
    forall i, j | 0 <= i < j < |ls| ensures ls[i].price != ls[j].price {
      assert Before(dir, ls[i].price, ls[j].price);
    }
  }

  /** The levels of a side list, at each price, exactly that side's quantity. */
  lemma LevelsQuantityAt(side: map<real, real>, dir: Direction, price: real)
    ensures QuantityAt(Levels(side, dir), price) == Get(side, price)
  {
    LevelsDistinct(side, dir);
    LevelsEntries(side, dir);
    QuantityAtDistinct(Levels(side, dir), price);
    if price in side {
      LevelsCover(side, dir, price);
    }
  }

  /** The levels of a side list exactly that side's prices. */
  lemma LevelsPriceSet(side: map<real, real>, dir: Direction)
    ensures PriceSet(Levels(side, dir)) == side.Keys
  {
    LevelsEntries(side, dir);
    forall p ensures p in PriceSet(Levels(side, dir)) <==> p in side {
      PriceSetMembers(Levels(side, dir), p);
      if p in side {
        LevelsCover(side, dir, p);
      }
    }
  }

  /** Adding the levels of a side one by one is the pointwise sum with that side. */
  lemma AddLevelsOfSide(acc: map<real, real>, side: map<real, real>, dir: Direction)
    ensures AddLevels(acc, Levels(side, dir)) == Plus(acc, side)
  {
    var ls := Levels(side, dir);
    var added := AddLevels(acc, ls);
    LevelsPriceSet(side, dir);
    forall p ensures Get(added, p) == Get(Plus(acc, side), p) {
      AddLevelsAt(acc, ls, p);
      LevelsQuantityAt(side, dir, p);
    }
    SameEntries(added, Plus(acc, side));
  }

  // ---------------------------------------------------------------------------
  // aggregateOrderBooks
  // ---------------------------------------------------------------------------

  /** The inner bid loop: addBid for every level, in order. */
  method AddBidLevels(merged: OrderBook, levels: seq<Level>)
    modifies merged
    ensures merged.bids == AddLevels(old(merged.bids), levels)
    ensures merged.asks == old(merged.asks)
  {
    for j := 0 to |levels|
      invariant merged.bids == AddLevels(old(merged.bids), levels[..j])
      invariant merged.asks == old(merged.asks)
    {
      assert levels[..j + 1][..j] == levels[..j];
      merged.AddBid(levels[j].price, levels[j].quantity);
    }
    assert levels[..|levels|] == levels;
  }

  /** The inner ask loop: addAsk for every level, in order. */
  method AddAskLevels(merged: OrderBook, levels: seq<Level>)
    modifies merged
    ensures merged.asks == AddLevels(old(merged.asks), levels)
    ensures merged.bids == old(merged.bids)
  {
    for j := 0 to |levels|
      invariant merged.asks == AddLevels(old(merged.asks), levels[..j])
      invariant merged.bids == old(merged.bids)
    {
      assert levels[..j + 1][..j] == levels[..j];
      merged.AddAsk(levels[j].price, levels[j].quantity);
    }
    assert levels[..|levels|] == levels;
  }

  /** The body of the merge for one successful exchange: its bids, then its asks. */
  method AddBook(merged: OrderBook, book: Snapshot)
    modifies merged
    ensures merged.bids == Plus(old(merged.bids), book.bids)
    ensures merged.asks == Plus(old(merged.asks), book.asks)
  {
    AddBidLevels(merged, Levels(book.bids, Descending));
    AddLevelsOfSide(old(merged.bids), book.bids, Descending);
    AddAskLevels(merged, Levels(book.asks, Ascending));
    AddLevelsOfSide(old(merged.asks), book.asks, Ascending);
  }

  /**
   * Start from an empty book; for each exchange in order, skip it if its
   * fetch or normalise failed, otherwise add every bid level and then every
   * ask level of its book into the merged book.
   */
  method AggregateOrderBooks(outcomes: seq<Outcome>) returns (merged: OrderBook)
    ensures fresh(merged)
    ensures merged.bids == Merged(outcomes, BidSide)
    ensures merged.asks == Merged(outcomes, AskSide)
  {
    merged := new OrderBook();
    for e := 0 to |outcomes|
      invariant merged.bids == Merged(outcomes[..e], BidSide)
      invariant merged.asks == Merged(outcomes[..e], AskSide)
    {
      assert outcomes[..e + 1][..e] == outcomes[..e];
      match outcomes[e]
      case Failed =>
      case Ok(book) => AddBook(merged, book);
    }
    assert outcomes[..|outcomes|] == outcomes;
  }

  // ---------------------------------------------------------------------------
  // Properties of the merge
  // ---------------------------------------------------------------------------

  /** The quantity at `price` summed over the books of the successful exchanges. */
  function SumAt(outcomes: seq<Outcome>, side: Side, price: real): real
  {
    if outcomes == [] then 0.0
    else
      SumAt(outcomes[..|outcomes| - 1], side, price) +
      match outcomes[|outcomes| - 1]
      case Failed => 0.0
      case Ok(book) => Get(SideOf(book, side), price)
  }

  /** The prices listed by any successful exchange on one side. */
  function KeyUnion(outcomes: seq<Outcome>, side: Side): set<real>
  {
    if outcomes == [] then {}
    else
      KeyUnion(outcomes[..|outcomes| - 1], side) +
      match outcomes[|outcomes| - 1]
      case Failed => {}
      case Ok(book) => SideOf(book, side).Keys
  }

  /** The sum of the successful exchanges' depths on one side. */
  function TotalDepth(outcomes: seq<Outcome>, side: Side): nat
  {
    if outcomes == [] then 0
    else
      TotalDepth(outcomes[..|outcomes| - 1], side) +
      match outcomes[|outcomes| - 1]
      case Failed => 0
      case Ok(book) => |SideOf(book, side)|
  }

  /** The merged quantity at each price is the sum of that price's quantity over the successful books. */
  lemma {:induction false} MergedAt(outcomes: seq<Outcome>, side: Side, price: real)
    ensures Get(Merged(outcomes, side), price) == SumAt(outcomes, side, price)
  {
    if outcomes != [] {
      MergedAt(outcomes[..|outcomes| - 1], side, price);
    }
  }

  lemma UnionSize(a: set<real>, b: set<real>)
    ensures |a + b| <= |a| + |b|
  {
    assert |a + b| + |a * b| == |a| + |b|;
  }

  /** The merged depth never exceeds the sum of the successful books' depths. */
  lemma {:induction false} MergedDepthBound(outcomes: seq<Outcome>, side: Side)
    ensures |Merged(outcomes, side)| <= TotalDepth(outcomes, side)
  {
    if outcomes != [] {
      var prefix := outcomes[..|outcomes| - 1];
      MergedDepthBound(prefix, side);
      match outcomes[|outcomes| - 1]
      case Failed =>
      case Ok(book) =>
        var m := Merged(prefix, side);
        UnionSize(m.Keys, SideOf(book, side).Keys);
        assert |Merged(outcomes, side)| == |m.Keys + SideOf(book, side).Keys|;
    }
  }

  /** Merging a concatenation is merging the two merges: the fold is associative. */
  lemma {:induction false} MergeAppend(xs: seq<Outcome>, ys: seq<Outcome>, side: Side)
    ensures Merged(xs + ys, side) == Plus(Merged(xs, side), Merged(ys, side))
    decreases |ys|
  {
    if ys == [] {
      assert xs + ys == xs;
      SameEntries(Merged(xs, side), Plus(Merged(xs, side), map[]));
    } else {
      var front := ys[..|ys| - 1];
      assert (xs + ys)[..|xs + ys| - 1] == xs + front;
      assert (xs + ys)[|xs + ys| - 1] == ys[|ys| - 1];
      MergeAppend(xs, front, side);
      var a, b := Merged(xs, side), Merged(front, side);
      match ys[|ys| - 1]
      case Failed =>
      case Ok(book) =>
        var c := SideOf(book, side);
        SameEntries(Plus(Plus(a, b), c), Plus(a, Plus(b, c)));
    }
  }

  /** An exchange that failed contributes nothing, and the exchanges after it still count. */
  lemma FailedContributesNothing(xs: seq<Outcome>, ys: seq<Outcome>, side: Side)
    ensures Merged(xs + [Failed] + ys, side) == Merged(xs + ys, side)
  {
    MergeAppend(xs + [Failed], ys, side);
    MergeAppend(xs, ys, side);
    assert (xs + [Failed])[..|xs + [Failed]| - 1] == xs;
  }

  lemma MultisetRemove(xs: seq<Outcome>, ys: seq<Outcome>, j: nat)
    requires multiset(xs) == multiset(ys)
    requires xs != [] && j < |ys| && ys[j] == xs[0]
    ensures multiset(xs[1..]) == multiset(ys[..j] + ys[j + 1..])
  {
    var x := xs[0];
    assert xs == [x] + xs[1..];
    assert ys == ys[..j] + [x] + ys[j + 1..];
    assert multiset(xs[1..]) == multiset(xs) - multiset{x};
    assert multiset(ys[..j] + ys[j + 1..]) == multiset(ys) - multiset{x};
  }

  /** Moving one exchange to the front does not change the merge. */
  lemma MergedMoveToFront(ys: seq<Outcome>, j: nat, side: Side)
    requires j < |ys|
    ensures Merged(ys, side) == Merged([ys[j]] + (ys[..j] + ys[j + 1..]), side)
  {
    var x, before, after := ys[j], ys[..j], ys[j + 1..];
    assert ys == (before + [x]) + after;
    MergeAppend(before + [x], after, side);
    MergeAppend(before, [x], side);
    MergeAppend(before, after, side);
    MergeAppend([x], before + after, side);
    var a, m, c := Merged(before, side), Merged([x], side), Merged(after, side);
    SameEntries(Plus(m, Plus(a, c)), Plus(Plus(a, m), c));
  }

  /** The merged book does not depend on the order of the exchanges. */
  lemma {:induction false} MergedPermutation(xs: seq<Outcome>, ys: seq<Outcome>, side: Side)
    requires multiset(xs) == multiset(ys)
    ensures Merged(xs, side) == Merged(ys, side)
    decreases |xs|
  {
    if xs == [] {
      assert |ys| == |multiset(ys)| == 0;
    } else {
      assert xs[0] in multiset(ys);
      var j :| 0 <= j < |ys| && ys[j] == xs[0];
      MultisetRemove(xs, ys, j);
      MergedPermutation(xs[1..], ys[..j] + ys[j + 1..], side);
      MergedMoveToFront(ys, j, side);
      assert xs == [xs[0]] + xs[1..];
      MergeAppend([xs[0]], xs[1..], side);
      MergeAppend([xs[0]], ys[..j] + ys[j + 1..], side);
    }
  }

  /** When every exchange failed, both sides of the merged book are empty. */
  lemma {:induction false} AllFailedEmpty(outcomes: seq<Outcome>, side: Side)
    requires forall i :: 0 <= i < |outcomes| ==> outcomes[i] == Failed
    ensures Merged(outcomes, side) == map[]
  {
    if outcomes != [] {
      AllFailedEmpty(outcomes[..|outcomes| - 1], side);
    }
  }

  /** Books with non-negative quantities merge into a book with non-negative quantities. */
  lemma {:induction false} MergedNonNegative(outcomes: seq<Outcome>, side: Side)
    requires forall i :: 0 <= i < |outcomes| && outcomes[i].Ok? ==> NonNegativeSide(SideOf(outcomes[i].book, side))
    ensures NonNegativeSide(Merged(outcomes, side))
  {
    if outcomes != [] {
      var prefix := outcomes[..|outcomes| - 1];
      MergedNonNegative(prefix, side);
      var m := Merged(outcomes, side);
      forall p | p in m ensures m[p] >= 0.0 {
        assert Get(m, p) == m[p];
      }
    }
  }

  // ---------------------------------------------------------------------------
  // Reporting in main
  // ---------------------------------------------------------------------------

  /** What main prints for a side: a price, or "insufficient liquidity". */
  datatype Quote = Priced(price: real) | InsufficientLiquidity

  /** main reports any result that is not strictly positive as insufficient liquidity. */
  function Report(price: real): (q: Quote)
    ensures q.Priced? <==> price > 0.0
  {
    if price > 0.0 then Priced(price) else InsufficientLiquidity
  }

  /**
   * main's pipeline for a requested quantity: merge the exchanges, price a
   * buy on the merged asks and a sell on the merged bids, and report.
   */
  method QuoteBothSides(outcomes: seq<Outcome>, quantity: real) returns (buy: Quote, sell: Quote)
    requires quantity != 0.0
    ensures buy == Report(WalkPrice(Levels(Merged(outcomes, AskSide), Ascending), quantity))
    ensures sell == Report(WalkPrice(Levels(Merged(outcomes, BidSide), Descending), quantity))
  {
    var mergedBook := AggregateOrderBooks(outcomes);
    var buyPrice := mergedBook.GetBestPrice(quantity, true);
    var sellPrice := mergedBook.GetBestPrice(quantity, false);
    buy := Report(buyPrice);
    sell := Report(sellPrice);
  }

  /**
   * With positive prices and non-negative quantities, main reports
   * insufficient liquidity exactly when the side holds less than
   * `quantity - TOLERANCE` or holds nothing at all.
   */
  lemma ReportInsufficientIff(levels: seq<Level>, quantity: real)
    requires NonNegative(levels)
    requires quantity > 0.0
    requires forall i :: 0 <= i < |levels| ==> levels[i].price > 0.0
    ensures Report(WalkPrice(levels, quantity)) == InsufficientLiquidity <==>
              TotalQuantity(levels) < quantity - TOLERANCE || TotalQuantity(levels) == 0.0
  {
    WalkPriceSentinel(levels, quantity);
    WalkFilled(levels, quantity);
    WalkCostPositive(levels, quantity);
    WalkCostZero(levels, quantity);
    var w := Walk(levels, quantity);
    if TotalQuantity(levels) >= quantity - TOLERANCE && TotalQuantity(levels) > 0.0 {
      assert w.filled > 0.0 && w.cost > 0.0;
      assert w.cost / quantity > 0.0;
    }
  }

  /**
   * When every exchange failed, both sides are empty, every walk for more
   * than the tolerance returns -1.0, and main reports insufficient
   * liquidity on both sides for every positive quantity.
   */
  lemma AllFailedQuotes(outcomes: seq<Outcome>, quantity: real)
    requires forall i :: 0 <= i < |outcomes| ==> outcomes[i] == Failed
    requires quantity > 0.0
    ensures |Merged(outcomes, BidSide)| == 0 && |Merged(outcomes, AskSide)| == 0
    ensures quantity > TOLERANCE ==>
              WalkPrice(Levels(Merged(outcomes, AskSide), Ascending), quantity) == -1.0 &&
              WalkPrice(Levels(Merged(outcomes, BidSide), Descending), quantity) == -1.0
    ensures Report(WalkPrice(Levels(Merged(outcomes, AskSide), Ascending), quantity)) == InsufficientLiquidity
    ensures Report(WalkPrice(Levels(Merged(outcomes, BidSide), Descending), quantity)) == InsufficientLiquidity
  {
    AllFailedEmpty(outcomes, BidSide);
    AllFailedEmpty(outcomes, AskSide);
    var none: map<real, real> := map[];
    assert Levels(none, Ascending) == [];
    assert Levels(none, Descending) == [];
    EmptySideWalk(quantity);
  }
}
