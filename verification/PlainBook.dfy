/**
 * The abstract book: a map from keys to orders and one first-in-first-out
 * queue of keys per price. It has no cached totals and no index, so it says
 * what each book operation means without saying how the book keeps up.
 */
module PlainBooks {
  import opened Seqs
  import opened BookTypes

  datatype PlainBook = PlainBook(orders: map<OrderKey, Order>, queues: map<Spot, seq<OrderKey>>)

  const EMPTY := PlainBook(map[], map[])

  ghost predicate QueueOk(b: PlainBook, s: Spot)
    requires s in b.queues
  {
    && b.queues[s] != [] && Distinct(b.queues[s])
    && (forall k :: k in b.queues[s] ==> k in b.orders && SpotOf(b.orders[k]) == s)
  }

  ghost predicate OrderOk(b: PlainBook, k: OrderKey)
    requires k in b.orders
  {
    b.orders[k].key == k && k in QueueAt(b, SpotOf(b.orders[k]))
  }

  /** Every live order queues exactly once, at its own price; no queue is empty. */
  ghost predicate WellFormed(b: PlainBook) {
    && (forall s {:trigger QueueOk(b, s)} :: s in b.queues ==> QueueOk(b, s))
    && (forall k {:trigger OrderOk(b, k)} :: k in b.orders ==> OrderOk(b, k))
  }

  function QueueAt(b: PlainBook, s: Spot): seq<OrderKey> {
    if s in b.queues then b.queues[s] else []
  }

  function PutQueue(qs: map<Spot, seq<OrderKey>>, s: Spot, q: seq<OrderKey>): map<Spot, seq<OrderKey>> {
    if q == [] then qs - {s} else qs[s := q]
  }

  function SizesOf(q: seq<OrderKey>, orders: map<OrderKey, Order>): seq<nat>
    requires forall k :: k in q ==> k in orders
  {
    seq(|q|, i requires 0 <= i < |q| => orders[q[i]].size)
  }

  /** The size resting at a price; 0 where there is no level. */
  ghost function Total(b: PlainBook, s: Spot): nat
    requires WellFormed(b)
  {
    assert s in b.queues ==> QueueOk(b, s);
    Sum(SizesOf(QueueAt(b, s), b.orders))
  }

  // ---------- Operations ----------

  function Remove(b: PlainBook, k: OrderKey): PlainBook
    requires k in b.orders
  {
    var s := SpotOf(b.orders[k]);
    PlainBook(b.orders - {k}, PutQueue(b.queues, s, Without(QueueAt(b, s), k)))
  }

  /** Queue a new order at the back of its price. */
  function Append(b: PlainBook, o: Order): PlainBook {
    PlainBook(b.orders[o.key := o], PutQueue(b.queues, SpotOf(o), QueueAt(b, SpotOf(o)) + [o.key]))
  }

  function Delete(b: PlainBook, k: OrderKey): PlainBook {
    if k in b.orders then Remove(b, k) else b
  }

  /** Adding a live key cancels the old order first. */
  function Add(b: PlainBook, o: Order): PlainBook {
    Append(Delete(b, o.key), o)
  }

  function Resize(b: PlainBook, k: OrderKey, size: nat): PlainBook
    requires k in b.orders
  {
    b.(orders := b.orders[k := b.orders[k].(size := size)])
  }

  /** A size change keeps the order's place; a price change sends it to the back of the new price. */
  function Update(b: PlainBook, k: OrderKey, price: Option<int>, size: Option<nat>): (PlainBook, bool) {
    if k !in b.orders then (b, false) else
    var o := b.orders[k];
    var p := if price.Some? then price.value else o.price;
    var z := if size.Some? then size.value else o.size;
    if z == 0 then (Remove(b, k), true)
    else if p != o.price then (Append(Remove(b, k), o.(price := p, size := z)), true)
    else (Resize(b, k, z), z != o.size)
  }

  /** A changed priority sends the order to the back of its own price. */
  function Reprioritise(b: PlainBook, k: OrderKey, priority: nat): (PlainBook, bool) {
    if k !in b.orders || b.orders[k].priority == priority then (b, false)
    else (Append(Remove(b, k), b.orders[k].(priority := priority)), true)
  }

  /** Fill from the front of one price until `qty` is used up or the price is empty. */
  ghost function Consume(b: PlainBook, s: Spot, qty: nat): (r: PlainBook)
    requires WellFormed(b)
    ensures WellFormed(r)
    decreases |QueueAt(b, s)|
  {
    if qty == 0 || s !in b.queues then b
    else
      assert QueueOk(b, s);
      var k := b.queues[s][0];
      var o := b.orders[k];
      if o.size <= qty then
        RemoveKeeps(b, k);
        Consume(Remove(b, k), s, qty - o.size)
      else
        ResizeKeeps(b, k, o.size - qty);
        Resize(b, k, o.size - qty)
  }

  /** The best price of a set of prices on one side. */
  predicate IsBest(side: Side, prices: set<int>, p: int) {
    p in prices && forall q :: q in prices && q != p ==> Better(side, p, q)
  }

  function Prices(spots: set<Spot>, side: Side): set<int> {
    set s | s in spots && s.side == side :: s.price
  }

  lemma {:induction false} BestExists(side: Side, prices: set<int>)
    requires prices != {}
    ensures exists p :: IsBest(side, prices, p)
  {
    var x := Pick(prices);
    if prices - {x} == {} {
      assert prices == {x};
      assert IsBest(side, prices, x);
    } else {
      BestExists(side, prices - {x});
      var y :| IsBest(side, prices - {x}, y);
      var best := if Better(side, x, y) then x else y;
      assert forall q :: q in prices ==> q == x || q in prices - {x};
      assert IsBest(side, prices, best);
    }
  }

  ghost function Best(side: Side, prices: set<int>): (p: int)
    requires prices != {}
    ensures IsBest(side, prices, p)
  {
    BestExists(side, prices);
    var p :| IsBest(side, prices, p);
    p
  }

  ghost function BestPrice(b: PlainBook, side: Side): Option<int> {
    var ps := Prices(b.queues.Keys, side);
    if ps == {} then None else Some(Best(side, ps))
  }

  /** Which resting side a print at `price` hits, if the book can tell. */
  ghost function PassiveSide(b: PlainBook, price: int, aggr: Aggressor): Option<Side> {
    match aggr
    case Buy => Some(Ask)
    case Sell => Some(Bid)
    case Unknown =>
      var bb, ba := BestPrice(b, Bid), BestPrice(b, Ask);
      if bb.Some? && price <= bb.value then Some(Bid)
      else if ba.Some? && price >= ba.value then Some(Ask)
      else None
  }

  ghost function Trade(b: PlainBook, price: int, qty: nat, aggr: Aggressor): (r: PlainBook)
    requires WellFormed(b)
    ensures WellFormed(r)
  {
    var side := PassiveSide(b, price, aggr);
    if side.None? then b else Consume(b, Spot(side.value, price), qty)
  }

  /** The size a fill of `qty` can find at one price. */
  ghost function Fill(b: PlainBook, s: Spot, qty: nat): nat
    requires WellFormed(b)
  {
    if qty <= Total(b, s) then qty else Total(b, s)
  }

  /** Prices from best to worst. */
  ghost function Ladder(side: Side, prices: set<int>): (l: seq<int>)
    ensures |l| == |prices|
  {
    if prices == {} then [] else
    var p := Best(side, prices);
    [p] + Ladder(side, prices - {p})
  }

  /** The ladder lists every price once, in strict order from the best. */
  lemma {:induction false} LadderSorted(side: Side, prices: set<int>)
    ensures forall p :: p in Ladder(side, prices) <==> p in prices
    ensures forall i, j :: 0 <= i < j < |prices| ==> Better(side, Ladder(side, prices)[i], Ladder(side, prices)[j])
  {
    if prices != {} {
      var p := Best(side, prices);
      var rest := Ladder(side, prices - {p});
      LadderSorted(side, prices - {p});
      assert forall i :: 0 <= i < |rest| ==> rest[i] in rest;
      assert Ladder(side, prices) == [p] + rest;
    }
  }

  lemma LadderHead(side: Side, prices: set<int>, p: int)
    requires IsBest(side, prices, p)
    ensures Ladder(side, prices) == [p] + Ladder(side, prices - {p})
  {
  }

  lemma LadderTurn(side: Side, prices: set<int>, out: seq<int>, rest: set<int>, p: int)
    requires Ladder(side, prices) == out + Ladder(side, rest) && IsBest(side, rest, p)
    ensures Ladder(side, prices) == out + [p] + Ladder(side, rest - {p})
  {
    LadderHead(side, rest, p);
    assert out + ([p] + Ladder(side, rest - {p})) == out + [p] + Ladder(side, rest - {p});
  }

  ghost function TopLevels(b: PlainBook, side: Side, n: nat): (r: seq<(int, nat)>)
    requires WellFormed(b)
  {
    var l := Ladder(side, Prices(b.queues.Keys, side));
    seq(if n <= |l| then n else |l|, i requires 0 <= i < |l| => (l[i], Total(b, Spot(side, l[i]))))
  }

  lemma AreTopLevels(b: PlainBook, side: Side, n: nat, prices: seq<int>, out: seq<(int, nat)>)
    requires WellFormed(b) && |prices| == |out|
    requires var l := Ladder(side, Prices(b.queues.Keys, side));
      |prices| == (if n <= |l| then n else |l|) && prices == l[..|prices|]
    requires forall j :: 0 <= j < |out| ==> out[j] == (prices[j], Total(b, Spot(side, prices[j])))
    ensures out == TopLevels(b, side, n)
  {
  }

  // ---------- Keys for adds without an id ----------

  function NextId(counters: map<Scope, nat>, scope: Scope): nat {
    if scope in counters then counters[scope] else 1
  }

  function ScopedKey(counters: map<Scope, nat>, key: OrderKey, scope: Scope, idMissing: bool): OrderKey {
    if idMissing || key.id == 0 then OrderKey(NextId(counters, scope), scope, true) else key.(scope := scope)
  }

  function CountersAfter(counters: map<Scope, nat>, key: OrderKey, scope: Scope, idMissing: bool): map<Scope, nat> {
    if idMissing || key.id == 0 then counters[scope := NextId(counters, scope) + 1] else counters
  }

  // ---------- The separate level-only ladder ----------

  function AggSnapshot(entries: seq<(Spot, LevelAgg)>): map<Spot, LevelAgg> {
    if entries == [] then map[] else
    var n := |entries| - 1;
    var m := AggSnapshot(entries[..n]);
    if entries[n].1.totalSize == 0 then m else m[entries[n].0 := entries[n].1]
  }

  function AggSummary(agg: map<Spot, LevelAgg>, s: Spot, total: nat, count: Option<nat>): (map<Spot, LevelAgg>, bool) {
    if total == 0 then (agg - {s}, true) else
    var was := if s in agg then agg[s] else LevelAgg(0, 0);
    var now := LevelAgg(total, if count.Some? then count.value else was.orderCount);
    (agg[s := now], was != now)
  }

  function AddAll(b: PlainBook, orders: seq<Order>): PlainBook
    decreases |orders|
  {
    if orders == [] then b else Add(AddAll(b, orders[..|orders| - 1]), orders[|orders| - 1])
  }

  lemma AddAllStep(b: PlainBook, orders: seq<Order>, i: nat)
    requires i < |orders|
    ensures AddAll(b, orders[..i + 1]) == Add(AddAll(b, orders[..i]), orders[i])
  {
    assert orders[..i + 1][..i] == orders[..i];
  }

  // ---------- Every operation keeps the book well formed ----------

  lemma RemoveKeeps(b: PlainBook, k: OrderKey)
    requires WellFormed(b) && k in b.orders
    ensures WellFormed(Remove(b, k))
  {
    var r := Remove(b, k);
    assert OrderOk(b, k);
    forall s | s in r.queues ensures QueueOk(r, s) {
      assert QueueOk(b, s);
    }
    forall j | j in r.orders ensures OrderOk(r, j) {
      assert OrderOk(b, j);
    }
  }

  lemma AppendKeeps(b: PlainBook, o: Order)
    requires WellFormed(b) && o.key !in b.orders
    ensures WellFormed(Append(b, o))
  {
    var r := Append(b, o);
    forall s | s in r.queues ensures QueueOk(r, s) {
      if s in b.queues { assert QueueOk(b, s); }
    }
    forall j | j in r.orders ensures OrderOk(r, j) {
      if j != o.key { assert OrderOk(b, j); }
    }
  }

  lemma ResizeKeeps(b: PlainBook, k: OrderKey, size: nat)
    requires WellFormed(b) && k in b.orders
    ensures WellFormed(Resize(b, k, size))
  {
    var r := Resize(b, k, size);
    forall s | s in r.queues ensures QueueOk(r, s) {
      assert QueueOk(b, s);
    }
    forall j | j in r.orders ensures OrderOk(r, j) {
      assert OrderOk(b, j);
    }
  }
}
