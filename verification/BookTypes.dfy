/**
 * The values the order book works on. Prices are integer ticks; the unsigned
 * 64-bit sizes, identifiers and sequence numbers are unbounded naturals.
 */
module BookTypes {

  datatype Side = Bid | Ask

  datatype Aggressor = Unknown | Buy | Sell

  /** A feed and its session epoch. */
  datatype Scope = Scope(feedId: nat, epoch: nat)

  datatype OrderKey = OrderKey(id: nat, scope: Scope, synthetic: bool)

  datatype Order = Order(key: OrderKey, side: Side, price: int, size: nat, priority: nat)

  /** Where a price level lives: the ladder and the price within it. */
  datatype Spot = Spot(side: Side, price: int)

  datatype LevelAgg = LevelAgg(totalSize: nat, orderCount: nat)

  function SpotOf(o: Order): Spot {
    Spot(o.side, o.price)
  }

  /** The ladder comparator: bids best is highest, asks best is lowest. */
  predicate Better(side: Side, a: int, b: int) {
    if side == Bid then a > b else a < b
  }
}
