/**
 * The price-level ledger (order_book.cpp).
 *
 * Each side of the book is a map from price to resting quantity. The C++
 * source keeps bids in a std::map ordered by `greater<double>` (best, i.e.
 * highest, price first) and asks in a std::map ordered ascending (best, i.e.
 * lowest, price first). Here a side is a `map<real, real>` and its iteration
 * order is given by `Levels(side, dir)`.
 */
module OrderBookLedger {
  import opened DoubleUtils

  /** The order in which a side is iterated: asks ascend, bids descend. */
  datatype Direction = Ascending | Descending

  /** Price `a` is strictly better than price `b` on a side walked in direction `dir`. */
  predicate Before(dir: Direction, a: real, b: real)
  {
    match dir
    case Ascending => a < b
    case Descending => a > b
  }

  /** One entry of a side, as the C++ range-for loops see it. */
  datatype Level = Level(price: real, quantity: real)

  /** The quantity at `price`; a missing key reads as 0.0, which is what std::map's operator[] inserts. */
  function Get(side: map<real, real>, price: real): real
  {
    if price in side then side[price] else 0.0
  }

  /** The side after `side[price] += quantity`. */
  function Accumulate(side: map<real, real>, price: real, quantity: real): (r: map<real, real>)
    ensures r.Keys == side.Keys + {price}
    ensures r[price] == Get(side, price) + quantity
    ensures forall p :: p in side && p != price ==> r[p] == side[p]
    ensures |r| == if price in side then |side| else |side| + 1
  {
    side[price := Get(side, price) + quantity]
  }

  /** Adding `q1` and then `q2` at one price is the same as adding `q1 + q2` once. */
  lemma AccumulateTwice(side: map<real, real>, price: real, q1: real, q2: real)
    ensures Accumulate(Accumulate(side, price, q1), price, q2) == Accumulate(side, price, q1 + q2)
  {
  }

  // ---------------------------------------------------------------------------
  // Iteration order of a side
  // ---------------------------------------------------------------------------

  /** `b` is the first key of `keys` in direction `dir`. */
  predicate IsBest(keys: set<real>, dir: Direction, b: real)
  {
    b in keys && forall k :: k in keys && k != b ==> Before(dir, b, k)
  }

  lemma NonEmptyHasElement(keys: set<real>)
    requires keys != {}
    ensures exists k :: k in keys
  {
    if forall k :: k !in keys {
      assert false;
    }
  }

  lemma {:induction false} BestExists(keys: set<real>, dir: Direction)
    requires keys != {}
    ensures exists b :: IsBest(keys, dir, b)
    decreases |keys|
  {
    NonEmptyHasElement(keys);
    var k :| k in keys;
    if keys == {k} {
      assert IsBest(keys, dir, k);
    } else {
      var rest := keys - {k};
      BestExists(rest, dir);
      var b :| IsBest(rest, dir, b);
      if Before(dir, k, b) {
        forall x | x in keys && x != k ensures Before(dir, k, x) {
          assert x in rest;
        }
        assert IsBest(keys, dir, k);
      } else {
        assert IsBest(keys, dir, b);
      }
    }
  }

  /** Putting the best key in front of the sorted remaining keys sorts them all. */
  lemma SortedCons(keys: set<real>, dir: Direction, b: real, rest: seq<real>)
    requires IsBest(keys, dir, b)
    requires |rest| == |keys - {b}|
    requires forall k :: k in rest <==> k in keys - {b}
    requires forall i, j :: 0 <= i < j < |rest| ==> Before(dir, rest[i], rest[j])
    ensures |[b] + rest| == |keys|
    ensures forall k :: k in [b] + rest <==> k in keys
    ensures forall i, j :: 0 <= i < j < |[b] + rest| ==> Before(dir, ([b] + rest)[i], ([b] + rest)[j])
  {
    var r := [b] + rest;
    forall i, j | 0 <= i < j < |r| ensures Before(dir, r[i], r[j]) {
      assert r[j] == rest[j - 1] && rest[j - 1] in rest;
      if i > 0 {
        assert r[i] == rest[i - 1];
      } else {
        assert r[j] in keys && r[j] != b;
      }
    }
  }

  /** The keys of a side in iteration order: each key once, strictly best first. */
  function SortedKeys(keys: set<real>, dir: Direction): (r: seq<real>)
    ensures |r| == |keys|
    ensures forall k :: k in r <==> k in keys
    ensures forall i, j :: 0 <= i < j < |r| ==> Before(dir, r[i], r[j])
    decreases |keys|
  {
    if keys == {} then []
    else
      BestExists(keys, dir);
      var b :| b in keys && IsBest(keys, dir, b);
      var rest := SortedKeys(keys - {b}, dir);
      SortedCons(keys, dir, b, rest);
      [b] + rest
  }

  /** The levels of a side in the order the std::map iterates them, best price first. */
  function Levels(side: map<real, real>, dir: Direction): (r: seq<Level>)
    ensures |r| == |side|
  {
    var keys := SortedKeys(side.Keys, dir);
    seq(|keys|, i requires 0 <= i < |keys| => Level(keys[i], side[keys[i]]))
  }

  /** Each level is an entry of the side, and the levels come strictly best price first. */
  lemma LevelsEntries(side: map<real, real>, dir: Direction)
    ensures forall i :: 0 <= i < |Levels(side, dir)| ==>
              Levels(side, dir)[i].price in side && Levels(side, dir)[i].quantity == side[Levels(side, dir)[i].price]
    ensures forall i, j :: 0 <= i < j < |Levels(side, dir)| ==>
              Before(dir, Levels(side, dir)[i].price, Levels(side, dir)[j].price)
  {
  }

  /** Every price of a side is one of its levels. */
  lemma LevelsCover(side: map<real, real>, dir: Direction, p: real)
    requires p in side
    ensures exists i :: 0 <= i < |Levels(side, dir)| && Levels(side, dir)[i].price == p
  {
    var keys := SortedKeys(side.Keys, dir);
    var i :| 0 <= i < |keys| && keys[i] == p;
    assert Levels(side, dir)[i].price == p;
  }

  predicate NonNegative(levels: seq<Level>)
  {
    forall i :: 0 <= i < |levels| ==> levels[i].quantity >= 0.0
  }

  predicate NonNegativeSide(side: map<real, real>)
  {
    forall p :: p in side ==> side[p] >= 0.0
  }

  lemma LevelsNonNegative(side: map<real, real>, dir: Direction)
    requires NonNegativeSide(side)
    ensures NonNegative(Levels(side, dir))
  {
    LevelsEntries(side, dir);
  }

  // ---------------------------------------------------------------------------
  // Liquidity
  // ---------------------------------------------------------------------------

  /** Sum of the quantities of `levels`, accumulated in iteration order. */
  function TotalQuantity(levels: seq<Level>): (r: real)
    ensures NonNegative(levels) ==> r >= 0.0
  {
    if levels == [] then 0.0
    else TotalQuantity(levels[..|levels| - 1]) + levels[|levels| - 1].quantity
  }

  lemma {:induction false} TotalQuantityAppend(a: seq<Level>, b: seq<Level>)
    ensures TotalQuantity(a + b) == TotalQuantity(a) + TotalQuantity(b)
    decreases |b|
  {
    if b == [] {
      assert a + b == a;
    } else {
      assert (a + b)[..|a + b| - 1] == a + b[..|b| - 1];
      TotalQuantityAppend(a, b[..|b| - 1]);
    }
  }

  /**
   * With non-negative quantities, summing more of the best levels never
   * gives less liquidity.
   */
  lemma PrefixLiquidityMonotone(levels: seq<Level>, n: nat, m: nat)
    requires NonNegative(levels)
    requires n <= m <= |levels|
    ensures 0.0 <= TotalQuantity(levels[..n]) <= TotalQuantity(levels[..m]) <= TotalQuantity(levels)
  {
    var low, middle, high := levels[..n], levels[n..m], levels[m..];
    assert levels[..m] == low + middle;
    assert levels == levels[..m] + high;
    TotalQuantityAppend(low, middle);
    TotalQuantityAppend(levels[..m], high);
    assert NonNegative(low);
    assert NonNegative(middle);
    assert NonNegative(high);
  }

  /**
   * How many levels getTotal*Liquidity(levels) sums on a side of `depth`
   * levels: all of them for -1; otherwise the loop stops once it has added
   * `levels` of them, and since the check runs after the first addition any
   * value below 1 still counts one level.
   */
  function CountedLevels(levels: int, depth: nat): (n: nat)
    ensures n <= depth
    ensures levels == -1 ==> n == depth
    ensures levels >= 1 ==> n == if levels < depth then levels else depth
    ensures levels != -1 && levels < 1 ==> n == if depth == 0 then 0 else 1
  {
    if levels == -1 then depth
    else if levels < 1 then (if depth == 0 then 0 else 1)
    else if levels < depth then levels
    else depth
  }

  /**
   * The loop shared by getTotalBidLiquidity and getTotalAskLiquidity, over
   * a side's levels in iteration order.
   */
  method SumBestLevels(entries: seq<Level>, levels: int) returns (total: real)
    ensures total == TotalQuantity(entries[..CountedLevels(levels, |entries|)])
  {
    ghost var n := CountedLevels(levels, |entries|);
    total := 0.0;
    var count := 0;
    var i := 0;
    while i < |entries|
      invariant 0 <= i <= n && count == i
      invariant i < |entries| ==> i < n
      invariant total == TotalQuantity(entries[..i])
    {
      total := total + entries[i].quantity;
      count := count + 1;
      assert entries[..i + 1][..i] == entries[..i];
      i := i + 1;
      if levels != -1 && count >= levels {
        break;
      }
    }
  }

  // ---------------------------------------------------------------------------
  // The liquidity walk
  // ---------------------------------------------------------------------------

  /** The walk's accumulators: quantity taken, amount paid, quantity still wanted. */
  datatype Fill = Fill(filled: real, cost: real, remaining: real)

  /** std::min on doubles: the first argument unless the second is smaller. */
  function Min(a: real, b: real): (r: real)
    ensures r <= a && r <= b
    ensures r == a || r == b
  {
    if b < a then b else a
  }

  /**
   * The greedy fill of `quantity` over `levels`, best level first: each level
   * reached while something remains gives min(available, remaining), paid
   * at the level's price; once nothing remains the later levels are not
   * visited.
   */
  function Walk(levels: seq<Level>, quantity: real): Fill
  {
    if levels == [] then Fill(0.0, 0.0, quantity)
    else
      var before := Walk(levels[..|levels| - 1], quantity);
      var level := levels[|levels| - 1];
      if before.remaining <= 0.0 then before
      else
        var take := Min(level.quantity, before.remaining);
        Fill(before.filled + take, before.cost + take * level.price, before.remaining - take)
  }

  /** Once the walk has nothing left to fill, further levels change nothing. */
  lemma {:induction false} WalkStops(levels: seq<Level>, n: nat, quantity: real)
    requires n <= |levels|
    requires Walk(levels[..n], quantity).remaining <= 0.0
    ensures Walk(levels, quantity) == Walk(levels[..n], quantity)
    decreases |levels| - n
  {
    if n < |levels| {
      assert levels[..n + 1][..n] == levels[..n];
      WalkStops(levels, n + 1, quantity);
    } else {
      assert levels[..n] == levels;
    }
  }

  /** One more level of the walk, while something remains to fill. */
  lemma WalkStep(levels: seq<Level>, i: nat, quantity: real, filled: real, cost: real, remaining: real)
    requires i < |levels|
    requires Walk(levels[..i], quantity) == Fill(filled, cost, remaining)
    requires remaining > 0.0
    ensures var take := Min(levels[i].quantity, remaining);
            Walk(levels[..i + 1], quantity) == Fill(filled + take, cost + take * levels[i].price, remaining - take)
  {
    assert levels[..i + 1][..i] == levels[..i];
  }

  /**
   * The loop of calculatePriceFromMap: walk the levels best first, taking
   * min(available, remaining) at each, until nothing remains or the levels
   * run out.
   */
  method WalkLevels(levels: seq<Level>, quantity: real) returns (totalQty: real, totalCost: real)
    ensures totalQty == Walk(levels, quantity).filled
    ensures totalCost == Walk(levels, quantity).cost
  {
    var remaining := quantity;
    totalQty, totalCost := 0.0, 0.0;
    var i := 0;
    while i < |levels| && remaining > 0.0
      invariant 0 <= i <= |levels|
      invariant totalQty + remaining == quantity
      invariant quantity >= 0.0 ==> remaining >= 0.0
      invariant Walk(levels[..i], quantity) == Fill(totalQty, totalCost, remaining)
    {
      var price := levels[i].price;
      var availableQty := levels[i].quantity;
      var qtyToTake := Min(availableQty, remaining);
      WalkStep(levels, i, quantity, totalQty, totalCost, remaining);
      totalCost := totalCost + qtyToTake * price;
      remaining := remaining - qtyToTake;
      totalQty := totalQty + qtyToTake;
      i := i + 1;
    }
    if i == |levels| {
      assert levels[..i] == levels;
    } else {
      WalkStops(levels, i, quantity);
    }
  }

  /** calculatePriceFromMap's result: -1.0 when the fill misses `quantity` by more than the tolerance. */
  function WalkPrice(levels: seq<Level>, quantity: real): (r: real)
    requires quantity != 0.0
    ensures !DoubleEquals(Walk(levels, quantity).filled, quantity) ==> r == -1.0
  {
    var w := Walk(levels, quantity);
    if !DoubleEquals(w.filled, quantity) then -1.0 else w.cost / quantity
  }

  /**
   * With non-negative quantities the walk fills exactly
   * min(quantity, available liquidity), and what is filled plus what
   * remains is what was asked for.
   */
  lemma {:induction false} WalkFilled(levels: seq<Level>, quantity: real)
    requires NonNegative(levels)
    requires quantity >= 0.0
    ensures Walk(levels, quantity).filled == Min(quantity, TotalQuantity(levels))
    ensures Walk(levels, quantity).filled + Walk(levels, quantity).remaining == quantity
  {
    if levels != [] {
      var prefix := levels[..|levels| - 1];
      WalkFilled(prefix, quantity);
    }
  }

  lemma MulMonotone(x: real, a: real, b: real)
    requires x >= 0.0 && a <= b
    ensures x * a <= x * b
  {
    assert x * b - x * a == x * (b - a);
  }

  lemma CostStepAtLeast(lo: real, filled: real, cost: real, take: real, price: real)
    requires lo * filled <= cost
    requires take >= 0.0 && lo <= price
    ensures lo * (filled + take) <= cost + take * price
  {
    MulMonotone(take, lo, price);
    assert lo * (filled + take) == lo * filled + take * lo;
  }

  lemma CostStepAtMost(hi: real, filled: real, cost: real, take: real, price: real)
    requires cost <= hi * filled
    requires take >= 0.0 && price <= hi
    ensures cost + take * price <= hi * (filled + take)
  {
    MulMonotone(take, price, hi);
    assert hi * (filled + take) == hi * filled + take * hi;
  }

  /** When no price is below `lo`, the walk pays at least `lo` per unit filled. */
  lemma {:induction false} WalkCostAtLeast(levels: seq<Level>, quantity: real, lo: real)
    requires NonNegative(levels)
    requires forall i :: 0 <= i < |levels| ==> lo <= levels[i].price
    ensures lo * Walk(levels, quantity).filled <= Walk(levels, quantity).cost
  {
    if levels != [] {
      var prefix := levels[..|levels| - 1];
      var before := Walk(prefix, quantity);
      var level := levels[|levels| - 1];
      WalkCostAtLeast(prefix, quantity, lo);
      assert lo <= level.price && level.quantity >= 0.0;
      if before.remaining > 0.0 {
        var take := Min(level.quantity, before.remaining);
        assert take >= 0.0;
        CostStepAtLeast(lo, before.filled, before.cost, take, level.price);
      }
    }
  }

  /** When no price is above `hi`, the walk pays at most `hi` per unit filled. */
  lemma {:induction false} WalkCostAtMost(levels: seq<Level>, quantity: real, hi: real)
    requires NonNegative(levels)
    requires forall i :: 0 <= i < |levels| ==> levels[i].price <= hi
    ensures Walk(levels, quantity).cost <= hi * Walk(levels, quantity).filled
  {
    if levels != [] {
      var prefix := levels[..|levels| - 1];
      var before := Walk(prefix, quantity);
      var level := levels[|levels| - 1];
      WalkCostAtMost(prefix, quantity, hi);
      assert level.price <= hi && level.quantity >= 0.0;
      if before.remaining > 0.0 {
        var take := Min(level.quantity, before.remaining);
        assert take >= 0.0;
        CostStepAtMost(hi, before.filled, before.cost, take, level.price);
      }
    }
  }

  /** With positive prices the walk pays a positive amount as soon as it fills anything. */
  lemma {:induction false} WalkCostPositive(levels: seq<Level>, quantity: real)
    requires NonNegative(levels)
    requires forall i :: 0 <= i < |levels| ==> levels[i].price > 0.0
    ensures Walk(levels, quantity).filled > 0.0 ==> Walk(levels, quantity).cost > 0.0
  {
    if levels != [] {
      var prefix := levels[..|levels| - 1];
      var before := Walk(prefix, quantity);
      var level := levels[|levels| - 1];
      WalkCostPositive(prefix, quantity);
      WalkCostAtLeast(prefix, quantity, 0.0);
      if before.remaining > 0.0 {
        var take := Min(level.quantity, before.remaining);
        MulMonotone(take, 0.0, level.price);
        if take > 0.0 {
          assert take * level.price > 0.0;
        }
      }
    }
  }

  /** A walk that fills nothing pays nothing. */
  lemma {:induction false} WalkCostZero(levels: seq<Level>, quantity: real)
    requires NonNegative(levels)
    requires quantity >= 0.0
    ensures Walk(levels, quantity).filled == 0.0 ==> Walk(levels, quantity).cost == 0.0
  {
    if levels != [] {
      var prefix := levels[..|levels| - 1];
      var before := Walk(prefix, quantity);
      WalkCostZero(prefix, quantity);
      WalkFilled(prefix, quantity);
      if before.remaining > 0.0 {
        var take := Min(levels[|levels| - 1].quantity, before.remaining);
        assert take >= 0.0;
        if before.filled + take == 0.0 {
          assert take == 0.0;
        }
      }
    }
  }

  /**
   * The sentinel rule: with non-negative quantities and a positive request,
   * the walk reports -1.0 exactly when the side holds less than
   * `quantity - TOLERANCE`, and otherwise the cost of the fill divided by
   * the requested quantity; a side holding the whole request fills it exactly.
   */
  lemma WalkPriceSentinel(levels: seq<Level>, quantity: real)
    requires NonNegative(levels)
    requires quantity > 0.0
    ensures TotalQuantity(levels) < quantity - TOLERANCE ==> WalkPrice(levels, quantity) == -1.0
    ensures TotalQuantity(levels) >= quantity - TOLERANCE ==>
              WalkPrice(levels, quantity) == Walk(levels, quantity).cost / quantity
    ensures TotalQuantity(levels) >= quantity ==> Walk(levels, quantity).filled == quantity
  {
    WalkFilled(levels, quantity);
  }

  lemma DivNonNegative(cost: real, quantity: real)
    requires cost >= 0.0 && quantity > 0.0
    ensures cost / quantity >= 0.0
  {
  }

  /** With non-negative prices the -1.0 sentinel cannot be mistaken for a price. */
  lemma WalkPriceSentinelIff(levels: seq<Level>, quantity: real)
    requires NonNegative(levels)
    requires quantity > 0.0
    requires forall i :: 0 <= i < |levels| ==> levels[i].price >= 0.0
    ensures WalkPrice(levels, quantity) == -1.0 <==> TotalQuantity(levels) < quantity - TOLERANCE
  {
    WalkPriceSentinel(levels, quantity);
    WalkFilled(levels, quantity);
    WalkCostAtLeast(levels, quantity, 0.0);
    DivNonNegative(Walk(levels, quantity).cost, quantity);
  }

  lemma DivBetween(cost: real, quantity: real, lo: real, hi: real)
    requires quantity > 0.0
    requires lo * quantity <= cost <= hi * quantity
    ensures lo <= cost / quantity <= hi
  {
    var price := cost / quantity;
    assert price * quantity == cost;
    if price < lo {
      MulMonotone(quantity, price, lo);
      assert false;
    }
    if price > hi {
      MulMonotone(quantity, hi, price);
      assert false;
    }
  }

  /** A walk that fills the whole request pays per unit between `lo` and `hi`. */
  lemma CostPerUnitWithin(levels: seq<Level>, quantity: real, lo: real, hi: real)
    requires NonNegative(levels)
    requires quantity > 0.0
    requires forall i :: 0 <= i < |levels| ==> lo <= levels[i].price <= hi
    requires Walk(levels, quantity).filled == quantity
    ensures lo <= Walk(levels, quantity).cost / quantity <= hi
  {
    var w := Walk(levels, quantity);
    WalkCostAtLeast(levels, quantity, lo);
    WalkCostAtMost(levels, quantity, hi);
    DivBetween(w.cost, w.filled, lo, hi);
  }

  /**
   * When the side holds at least the requested quantity, the returned
   * volume-weighted price lies between the lowest and the highest price
   * the side offers.
   */
  lemma WalkPriceWithin(levels: seq<Level>, quantity: real, lo: real, hi: real)
    requires NonNegative(levels)
    requires quantity > 0.0
    requires forall i :: 0 <= i < |levels| ==> lo <= levels[i].price <= hi
    requires TotalQuantity(levels) >= quantity
    ensures lo <= WalkPrice(levels, quantity) <= hi
  {
    WalkPriceSentinel(levels, quantity);
    CostPerUnitWithin(levels, quantity, lo, hi);
  }

  /**
   * On an empty side the walk reports -1.0 for every request above the
   * tolerance, but 0.0 for a positive request within the tolerance
   * (doubleEquals(0, quantity) holds there and 0 / quantity is returned).
   */
  lemma EmptySideWalk(quantity: real)
    requires quantity > 0.0
    ensures quantity > TOLERANCE ==> WalkPrice([], quantity) == -1.0
    ensures quantity <= TOLERANCE ==> WalkPrice([], quantity) == 0.0
  {
  }

  /** The ask side {100: 2, 101: 3}: buying 4 averages 100.5, buying 10 is not possible. */
  lemma ExampleAskWalk()
    ensures WalkPrice(Levels(map[100.0 := 2.0, 101.0 := 3.0], Ascending), 4.0) == 100.5
    ensures WalkPrice(Levels(map[100.0 := 2.0, 101.0 := 3.0], Ascending), 10.0) == -1.0
  {
    var side := map[100.0 := 2.0, 101.0 := 3.0];
    var ls := Levels(side, Ascending);
    assert |side| == 2 by {
      assert side.Keys == {100.0, 101.0};
    }
    assert ls[0].price in side && ls[1].price in side;
    assert Before(Ascending, ls[0].price, ls[1].price);
    assert ls == [Level(100.0, 2.0), Level(101.0, 3.0)];
    assert ls[..1] == [Level(100.0, 2.0)];
    assert ls[..1][..0] == [];
    assert Walk(ls[..1], 4.0) == Fill(2.0, 200.0, 2.0);
    assert Walk(ls, 4.0) == Fill(4.0, 402.0, 0.0);
    assert Walk(ls[..1], 10.0) == Fill(2.0, 200.0, 8.0);
    assert Walk(ls, 10.0) == Fill(5.0, 503.0, 5.0);
  }

  // ---------------------------------------------------------------------------
  // The ledger
  // ---------------------------------------------------------------------------

  /** The first key of a side in its iteration order (`begin()->first`), or 0 for an empty side. */
  function TopOfBook(side: map<real, real>, dir: Direction): (r: real)
    ensures side == map[] ==> r == 0.0
    ensures side != map[] ==> r in side && forall p :: p in side && p != r ==> Before(dir, r, p)
  {
    if side == map[] then 0.0 else SortedKeys(side.Keys, dir)[0]
  }

  class OrderBook {
    /** Bid price -> quantity, iterated highest price first. */
    var bids: map<real, real>
    /** Ask price -> quantity, iterated lowest price first. */
    var asks: map<real, real>

    constructor ()
      ensures bids == map[] && asks == map[]
    {
      bids := map[];
      asks := map[];
    }

    method AddBid(price: real, quantity: real)
      modifies this
      ensures bids == Accumulate(old(bids), price, quantity)
      ensures asks == old(asks)
      ensures BidDepth() == old(BidDepth()) + (if price in old(bids) then 0 else 1)
    {
      bids := bids[price := Get(bids, price) + quantity];
    }

    method AddAsk(price: real, quantity: real)
      modifies this
      ensures asks == Accumulate(old(asks), price, quantity)
      ensures bids == old(bids)
      ensures AskDepth() == old(AskDepth()) + (if price in old(asks) then 0 else 1)
    {
      asks := asks[price := Get(asks, price) + quantity];
    }

    /** The number of bid levels: the number of entries the bid side iterates. */
    function BidDepth(): (d: nat)
      reads this
      ensures d == |Levels(bids, Descending)|
    {
      |bids|
    }

    /** The number of ask levels: the number of entries the ask side iterates. */
    function AskDepth(): (d: nat)
      reads this
      ensures d == |Levels(asks, Ascending)|
    {
      |asks|
    }

    /** Sum of the quantities of the best bid levels (highest prices), all of them for -1. */
    method TotalBidLiquidity(levels: int := -1) returns (total: real)
      ensures total == TotalQuantity(Levels(bids, Descending)[..CountedLevels(levels, |bids|)])
    {
      total := SumBestLevels(Levels(bids, Descending), levels);
    }

    /** Sum of the quantities of the best ask levels (lowest prices), all of them for -1. */
    method TotalAskLiquidity(levels: int := -1) returns (total: real)
      ensures total == TotalQuantity(Levels(asks, Ascending)[..CountedLevels(levels, |asks|)])
    {
      total := SumBestLevels(Levels(asks, Ascending), levels);
    }

    /** The liquidity walk over `book`, iterated in direction `dir`. */
    method PriceFromMap(book: map<real, real>, dir: Direction, quantity: real) returns (price: real)
      requires quantity != 0.0
      ensures price == WalkPrice(Levels(book, dir), quantity)
    {
      var totalQty, totalCost := WalkLevels(Levels(book, dir), quantity);
      if !DoubleEquals(totalQty, quantity) {
        price := -1.0;
      } else {
        price := totalCost / quantity;
      }
    }

    /** A buy walks the asks (lowest first), a sell walks the bids (highest first). */
    method GetBestPrice(quantity: real, isBuy: bool) returns (price: real)
      requires quantity != 0.0
      ensures isBuy ==> price == WalkPrice(Levels(asks, Ascending), quantity)
      ensures !isBuy ==> price == WalkPrice(Levels(bids, Descending), quantity)
    {
      if isBuy {
        price := PriceFromMap(asks, Ascending, quantity);
      } else {
        price := PriceFromMap(bids, Descending, quantity);
      }
    }

    /** Best ask minus best bid, an empty side counting as price 0. */
    function Spread(): (r: real)
      reads this
      ensures bids == map[] && asks == map[] ==> r == 0.0
      ensures bids == map[] && asks != map[] ==> r in asks && forall a :: a in asks ==> r <= a
      ensures forall a, b :: a in asks && b in bids ==> r <= a - b
      ensures bids != map[] && asks != map[] ==>
                (r >= 0.0 <==> forall a, b :: a in asks && b in bids ==> b <= a)
      ensures bids != map[] && asks != map[] ==> exists a, b :: a in asks && b in bids && r == a - b
      ensures asks == map[] && bids != map[] ==> -r in bids && forall b :: b in bids ==> b <= -r
    {
      var bestAsk, bestBid := TopOfBook(asks, Ascending), TopOfBook(bids, Descending);
      assert bids != map[] && asks != map[] ==> bestAsk in asks && bestBid in bids;
      bestAsk - bestBid
    }
  }

  /**
   * Walking levels sorted best first, a fully filled request never averages
   * better than the first level's price nor worse than the last level's.
   */
  lemma WalkBetweenEnds(ls: seq<Level>, dir: Direction, quantity: real)
    requires NonNegative(ls)
    requires quantity > 0.0
    requires TotalQuantity(ls) >= quantity
    requires forall i, j :: 0 <= i < j < |ls| ==> Before(dir, ls[i].price, ls[j].price)
    ensures ls != []
    ensures !Before(dir, WalkPrice(ls, quantity), ls[0].price)
    ensures !Before(dir, ls[|ls| - 1].price, WalkPrice(ls, quantity))
  {
    assert ls != [];
    var best, worst := ls[0].price, ls[|ls| - 1].price;
    if dir == Ascending {
      forall i | 0 <= i < |ls| ensures best <= ls[i].price <= worst {
        assert i == 0 || Before(dir, ls[0].price, ls[i].price);
        assert i == |ls| - 1 || Before(dir, ls[i].price, ls[|ls| - 1].price);
      }
      WalkPriceWithin(ls, quantity, best, worst);
    } else {
      forall i | 0 <= i < |ls| ensures worst <= ls[i].price <= best {
        assert i == 0 || Before(dir, ls[0].price, ls[i].price);
        assert i == |ls| - 1 || Before(dir, ls[i].price, ls[|ls| - 1].price);
      }
      WalkPriceWithin(ls, quantity, worst, best);
    }
  }

  /**
   * Walking a side best-first, a fully filled request never averages better
   * than the side's best price: a buy pays at least the best ask, a sell
   * receives at most the best bid; nor worse than its worst price.
   */
  lemma WalkNeverBeatsTopOfBook(side: map<real, real>, dir: Direction, quantity: real)
    requires NonNegativeSide(side)
    requires quantity > 0.0
    requires TotalQuantity(Levels(side, dir)) >= quantity
    ensures side != map[]
    ensures var price := WalkPrice(Levels(side, dir), quantity);
            !Before(dir, price, TopOfBook(side, dir)) &&
            !Before(dir, Levels(side, dir)[|side| - 1].price, price)
  {
    var ls := Levels(side, dir);
    LevelsNonNegative(side, dir);
    LevelsEntries(side, dir);
    WalkBetweenEnds(ls, dir, quantity);
    assert TopOfBook(side, dir) == ls[0].price;
  }

}
