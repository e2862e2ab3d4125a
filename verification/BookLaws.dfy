/**
 * What each book operation does, said of orders, queues and totals and never
 * of the function that computes it: what is taken out, what arrives where and
 * at what size, which side a print hits, and that nothing else moves.
 */
module BookLaws {
  import opened Seqs
  import opened BookTypes
  import opened PlainBooks
  import opened BookRuns

  // ---------- The shapes of a change ----------

  /** What order `k` contributes to the total at `s`. */
  function Share(b: PlainBook, k: OrderKey, s: Spot): nat {
    if k in b.orders && SpotOf(b.orders[k]) == s then b.orders[k].size else 0
  }

  /** `k` leaves: its order, its place and its size go, and nothing else. */
  ghost predicate Departs(b: PlainBook, r: PlainBook, k: OrderKey)
    requires WellFormed(b) && WellFormed(r)
  {
    && r.orders == b.orders - {k}
    && (forall s :: QueueAt(r, s) == Without(QueueAt(b, s), k))
    && (forall s :: Total(r, s) + Share(b, k, s) == Total(b, s))
  }

  /** `o` now stands last at its spot, taken from wherever its key stood before. */
  ghost predicate Arrives(b: PlainBook, r: PlainBook, o: Order)
    requires WellFormed(b) && WellFormed(r)
  {
    && r.orders == b.orders[o.key := o]
    && (forall s :: QueueAt(r, s) == Without(QueueAt(b, s), o.key) + if s == SpotOf(o) then [o.key] else [])
    && (forall s :: Total(r, s) + Share(b, o.key, s) == Total(b, s) + if s == SpotOf(o) then o.size else 0)
  }

  /** Order `k` keeps its place and has another size. */
  ghost predicate Resizes(b: PlainBook, r: PlainBook, k: OrderKey, size: nat)
    requires WellFormed(b) && WellFormed(r) && k in b.orders
  {
    && r.orders == b.orders[k := b.orders[k].(size := size)] && r.queues == b.queues
    && (forall s :: Total(r, s) + Share(b, k, s) == Total(b, s) + if s == SpotOf(b.orders[k]) then size else 0)
  }

  /** A fill: whole orders from the front, part of the next, up to `qty` in all; nothing else. */
  ghost predicate Fills(b: PlainBook, r: PlainBook, s: Spot, qty: nat)
    requires WellFormed(b) && WellFormed(r)
  {
    && (exists n: nat, part: nat {:trigger FrontFilled(b, s, n, part)} ::
          r == FrontFilled(b, s, n, part) && FillOf(b, s, qty, n, part))
    && Total(r, s) == Total(b, s) - (if qty <= Total(b, s) then qty else Total(b, s))
    && (forall t :: t != s ==> Total(r, t) == Total(b, t))
  }

  /** `n` whole orders and `part` of the next make `qty`, and the next is not used up. */
  ghost predicate FillOf(b: PlainBook, s: Spot, qty: nat, n: nat, part: nat)
    requires WellFormed(b)
  {
    assert s in b.queues ==> QueueOk(b, s);
    var sizes := SizesOf(QueueAt(b, s), b.orders);
    n <= |sizes| && Sum(sizes[..n]) + part == qty && (n < |sizes| ==> part == 0 || part < sizes[n])
  }

  // ---------- What each operation means ----------

  /** The price and size an update asks for, the order's own where it asks for none. */
  function Wanted(o: Order, price: Option<int>, size: Option<nat>): Order {
    o.(price := if price.Some? then price.value else o.price, size := if size.Some? then size.value else o.size)
  }

  ghost predicate Updates(b: PlainBook, r: PlainBook, k: OrderKey, price: Option<int>, size: Option<nat>, changed: bool)
    requires WellFormed(b) && WellFormed(r)
  {
    if k !in b.orders then r == b && !changed
    else
      var was, now := b.orders[k], Wanted(b.orders[k], price, size);
      && changed == (now != was || now.size == 0)
      && (if now.size == 0 then Departs(b, r, k)
          else if now.price != was.price then Arrives(b, r, now)
          else Resizes(b, r, k, now.size))
  }

  ghost predicate Deletes(b: PlainBook, r: PlainBook, k: OrderKey, found: bool)
    requires WellFormed(b) && WellFormed(r)
  {
    found == (k in b.orders) && if found then Departs(b, r, k) else r == b
  }

  ghost predicate Prioritises(b: PlainBook, r: PlainBook, k: OrderKey, priority: nat, changed: bool)
    requires WellFormed(b) && WellFormed(r)
  {
    && changed == (k in b.orders && b.orders[k].priority != priority)
    && if changed then Arrives(b, r, b.orders[k].(priority := priority)) else r == b
  }

  /** Some level of this side stands at the price or beyond it. */
  ghost predicate Reached(b: PlainBook, side: Side, price: int) {
    exists q :: Spot(side, q) in b.queues && !Better(side, price, q)
  }

  /** The side a print hits: the one the aggressor names, else bids if it reaches them, else asks if it reaches them. */
  ghost predicate Hits(b: PlainBook, side: Side, price: int, aggr: Aggressor) {
    match aggr
    case Buy => side == Ask
    case Sell => side == Bid
    case Unknown => Reached(b, side, price) && (side == Ask ==> !Reached(b, Bid, price))
  }

  ghost predicate Trades(b: PlainBook, r: PlainBook, price: int, qty: nat, aggr: Aggressor)
    requires WellFormed(b) && WellFormed(r)
  {
    && (forall side :: Hits(b, side, price, aggr) ==> Fills(b, r, Spot(side, price), qty))
    && ((forall side :: !Hits(b, side, price, aggr)) ==> r == b)
  }

  /** What an operation does, whoever computes it. */
  ghost predicate Means(b: PlainBook, op: Op, r: PlainBook)
    requires WellFormed(b) && WellFormed(r)
  {
    match op
    case AddOp(o) => Arrives(b, r, o)
    case UpdateOp(k, p, z) => exists changed :: Updates(b, r, k, p, z, changed)
    case DeleteOp(k) => exists found :: Deletes(b, r, k, found)
    case PriorityOp(k, p) => exists changed :: Prioritises(b, r, k, p, changed)
    case TradeOp(p, qty, aggr) => Trades(b, r, p, qty, aggr)
    case Clear => r.orders == map[] && r.queues == map[]
  }

  // ---------- And they do ----------

  lemma RemoveDeparts(b: PlainBook, k: OrderKey)
    requires WellFormed(b) && k in b.orders && WellFormed(Remove(b, k))
    ensures Departs(b, Remove(b, k), k)
  {
    forall s
      ensures QueueAt(Remove(b, k), s) == Without(QueueAt(b, s), k)
      ensures Total(Remove(b, k), s) + Share(b, k, s) == Total(b, s)
    {
      RemoveQueue(b, k, s);
      RemoveTotal(b, k, s);
    }
  }

  lemma ArrivesAt(b: PlainBook, o: Order, s: Spot)
    requires WellFormed(b) && WellFormed(Delete(b, o.key)) && WellFormed(Append(Delete(b, o.key), o))
    requires o.key !in Delete(b, o.key).orders
    ensures var r := Append(Delete(b, o.key), o);
      && QueueAt(r, s) == Without(QueueAt(b, s), o.key) + (if s == SpotOf(o) then [o.key] else [])
      && Total(r, s) + Share(b, o.key, s) == Total(b, s) + (if s == SpotOf(o) then o.size else 0)
  {
    var d := Delete(b, o.key);
    AppendTotal(d, o, s);
    if o.key in b.orders {
      RemoveQueue(b, o.key, s);
      RemoveTotal(b, o.key, s);
    } else {
      NotQueued(b, o.key, s);
    }
  }

  lemma NotQueued(b: PlainBook, k: OrderKey, s: Spot)
    requires WellFormed(b) && k !in b.orders
    ensures k !in QueueAt(b, s) && Without(QueueAt(b, s), k) == QueueAt(b, s)
  {
    if s in b.queues { assert QueueOk(b, s); }
  }

  lemma AddMeans(b: PlainBook, o: Order)
    requires WellFormed(b)
    ensures WellFormed(Add(b, o)) && Arrives(b, Add(b, o), o)
  {
    AddKeeps(b, o);
    DeleteKeeps(b, o.key);
    var r := Add(b, o);
    forall s
      ensures QueueAt(r, s) == Without(QueueAt(b, s), o.key) + if s == SpotOf(o) then [o.key] else []
      ensures Total(r, s) + Share(b, o.key, s) == Total(b, s) + if s == SpotOf(o) then o.size else 0
    {
      ArrivesAt(b, o, s);
    }
    assert r.orders == b.orders[o.key := o];
  }

  lemma ResizeMeans(b: PlainBook, k: OrderKey, size: nat)
    requires WellFormed(b) && k in b.orders
    ensures WellFormed(Resize(b, k, size)) && Resizes(b, Resize(b, k, size), k, size)
  {
    ResizeKeeps(b, k, size);
    forall s
      ensures Total(Resize(b, k, size), s) + Share(b, k, s)
           == Total(b, s) + if s == SpotOf(b.orders[k]) then size else 0
    {
      ResizeTotal(b, k, size, s);
    }
  }

  lemma DeleteMeans(b: PlainBook, k: OrderKey)
    requires WellFormed(b)
    ensures WellFormed(Delete(b, k)) && Deletes(b, Delete(b, k), k, k in b.orders)
  {
    DeleteKeeps(b, k);
    if k in b.orders { RemoveDeparts(b, k); }
  }

  lemma UpdateMeans(b: PlainBook, k: OrderKey, price: Option<int>, size: Option<nat>)
    requires WellFormed(b)
    ensures WellFormed(Update(b, k, price, size).0)
    ensures Updates(b, Update(b, k, price, size).0, k, price, size, Update(b, k, price, size).1)
  {
    UpdateKeeps(b, k, price, size);
    if k in b.orders {
      assert OrderOk(b, k);
      var now := Wanted(b.orders[k], price, size);
      if now.size == 0 {
        RemoveDeparts(b, k);
      } else if now.price != b.orders[k].price {
        AddMeans(b, now);
      } else {
        ResizeMeans(b, k, now.size);
      }
    }
  }

  lemma PriorityMeans(b: PlainBook, k: OrderKey, priority: nat)
    requires WellFormed(b)
    ensures WellFormed(Reprioritise(b, k, priority).0)
    ensures Prioritises(b, Reprioritise(b, k, priority).0, k, priority, Reprioritise(b, k, priority).1)
  {
    ReprioritiseKeeps(b, k, priority);
    if k in b.orders && b.orders[k].priority != priority {
      assert OrderOk(b, k);
      AddMeans(b, b.orders[k].(priority := priority));
    }
  }

  lemma ConsumeMeans(b: PlainBook, s: Spot, qty: nat)
    requires WellFormed(b)
    ensures Fills(b, Consume(b, s, qty), s, qty)
  {
    assert s in b.queues ==> QueueOk(b, s);
    var sizes := SizesOf(QueueAt(b, s), b.orders);
    var n, part := WholeFills(sizes, qty), Residue(sizes, qty);
    ConsumeIsFifo(b, s, qty, sizes);
    WholeFillsMaximal(sizes, qty);
    assert FillOf(b, s, qty, n, part);
    assert Consume(b, s, qty) == FrontFilled(b, s, n, part);
    ConsumeTotal(b, s, qty);
    forall t | t != s ensures Total(Consume(b, s, qty), t) == Total(b, t) {
      ConsumeElsewhere(b, s, qty, t);
    }
  }

  /** A print reaches a side exactly when it reaches its best price. */
  lemma ReachedIsBest(b: PlainBook, side: Side, price: int)
    ensures Reached(b, side, price) <==> BestPrice(b, side).Some? && !Better(side, price, BestPrice(b, side).value)
  {
    var ps := Prices(b.queues.Keys, side);
    forall q | q in ps ensures Spot(side, q) in b.queues {
      var s :| s in b.queues.Keys && s.side == side && s.price == q;
      assert s == Spot(side, q);
    }
    forall q | Spot(side, q) in b.queues ensures q in ps {
      assert Spot(side, q) in b.queues.Keys;
    }
  }

  /** A print of some size finds something where it hits. */
  ghost predicate Finds(b: PlainBook, price: int, qty: nat, aggr: Aggressor)
    requires WellFormed(b)
  {
    qty > 0 && exists side :: Hits(b, side, price, aggr) && Total(b, Spot(side, price)) > 0
  }

  lemma TradeMeans(b: PlainBook, price: int, qty: nat, aggr: Aggressor)
    requires WellFormed(b)
    ensures Trades(b, Trade(b, price, qty, aggr), price, qty, aggr)
    ensures var side := PassiveSide(b, price, aggr);
      Finds(b, price, qty, aggr) <==> side.Some? && Fill(b, Spot(side.value, price), qty) > 0
  {
    ReachedIsBest(b, Bid, price);
    ReachedIsBest(b, Ask, price);
    var side := PassiveSide(b, price, aggr);
    assert forall x :: Hits(b, x, price, aggr) <==> side == Some(x);
    if side.Some? { ConsumeMeans(b, Spot(side.value, price), qty); }
  }

  lemma ApplyMeans(b: PlainBook, op: Op)
    requires WellFormed(b)
    ensures Means(b, op, Apply(b, op))
  {
    match op
    case AddOp(o) => AddMeans(b, o);
    case UpdateOp(k, p, z) => UpdateMeans(b, k, p, z);
    case DeleteOp(k) => DeleteMeans(b, k);
    case PriorityOp(k, p) => PriorityMeans(b, k, p);
    case TradeOp(p, qty, aggr) => TradeMeans(b, p, qty, aggr);
    case Clear =>
  }

  /** In every run, every step does what its operation means. */
  lemma RunMeans(ops: seq<Op>, n: nat)
    requires n < |ops|
    ensures Means(Run(ops[..n]), ops[n], Run(ops[..n + 1]))
  {
    RunStep(ops, n);
    ApplyMeans(Run(ops[..n]), ops[n]);
  }

  // ---------- The level-only ladder ----------

  /** Entry `i` is the last one for its level that is not empty. */
  predicate LastFull(entries: seq<(Spot, LevelAgg)>, i: int, x: Spot) {
    && 0 <= i < |entries| && entries[i].0 == x && entries[i].1.totalSize != 0
    && (forall j :: i < j < |entries| && entries[j].0 == x ==> entries[j].1.totalSize == 0)
  }

  /** A level is shown exactly when some entry for it is not empty, and then as the last such entry has it. */
  lemma {:induction false} AggSnapshotMeans(entries: seq<(Spot, LevelAgg)>, x: Spot)
    ensures x in AggSnapshot(entries) <==> exists i :: LastFull(entries, i, x)
    ensures forall i :: LastFull(entries, i, x) ==> x in AggSnapshot(entries) && AggSnapshot(entries)[x] == entries[i].1
  {
    if entries != [] {
      var n := |entries| - 1;
      var pre := entries[..n];
      AggSnapshotMeans(pre, x);
      if entries[n].0 == x && entries[n].1.totalSize != 0 {
        assert LastFull(entries, n, x);
      } else {
        forall i ensures LastFull(entries, i, x) <==> LastFull(pre, i, x) {
          if LastFull(pre, i, x) {
            forall j | i < j < |entries| && entries[j].0 == x ensures entries[j].1.totalSize == 0 {
              if j < n { assert pre[j] == entries[j]; }
            }
          }
        }
      }
    }
  }

  // ---------- Synthetic ids ----------

  /** The counters after one add in each of these scopes, without an id where the flag is set. */
  function CountersRun(adds: seq<(Scope, bool)>): map<Scope, nat> {
    if adds == [] then map[] else
    var n := |adds| - 1;
    CountersAfter(CountersRun(adds[..n]), OrderKey(1, adds[n].0, false), adds[n].0, adds[n].1)
  }

  function Missing(adds: seq<(Scope, bool)>, s: Scope): nat {
    if adds == [] then 0 else
    var n := |adds| - 1;
    Missing(adds[..n], s) + if adds[n] == (s, true) then 1 else 0
  }

  /** The adds without an id in a scope are numbered 1, 2, 3, … whatever other scopes do. */
  lemma {:induction false} SyntheticIdsCount(adds: seq<(Scope, bool)>, s: Scope)
    ensures NextId(CountersRun(adds), s) == Missing(adds, s) + 1
    ensures ScopedKey(CountersRun(adds), OrderKey(1, s, false), s, true) == OrderKey(Missing(adds, s) + 1, s, true)
  {
    if adds != [] { SyntheticIdsCount(adds[..|adds| - 1], s); }
  }
}
