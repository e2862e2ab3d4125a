/**
 * `OrderBook`: each method edits the ladders, the list nodes and the index in
 * place, as the program does, and is proved against the abstract book.
 * Branches the program keeps for broken invariants are proved unreachable.
 */
module OrderBooks {
  import opened Seqs
  import opened BookTypes
  import P = PlainBooks
  import opened BookStores
  import R = BookRuns
  import L = BookLaws

  class OrderBook {
    var levels: map<Spot, PriceLevel>
    var nodes: map<Node, Order>
    var next: Node
    var byId: map<OrderKey, Locator>
    var synthCounters: map<Scope, nat>
    var aggLevels: map<Spot, LevelAgg>
    /** The abstract book this object stands for. */
    ghost var book: P.PlainBook
    /** The symbol this book belongs to. */
    ghost const symbol: string

    ghost function St(): Store
      reads this
    {
      Store(levels, nodes, next, byId)
    }

    ghost predicate Valid()
      reads this
    {
      Consistent(St()) && P.WellFormed(book) && book == View(St())
    }

    constructor (ghost symbol: string)
      ensures Valid() && book == P.EMPTY && this.symbol == symbol
      ensures synthCounters == map[] && aggLevels == map[]
    {
      levels, nodes, next, byId := map[], map[], 0, map[];
      synthCounters, aggLevels := map[], map[];
      book := P.EMPTY;
      this.symbol := symbol;
      new;
      assert St() == Store(map[], map[], 0, map[]);
      assert View(St()) == P.EMPTY;
    }

    // ---------- Core mutations ----------

    /** The step shared by delete, cancel-to-zero and price migration. */
    method Unlink(key: OrderKey)
      requires Valid() && key in byId
      modifies `book, `levels, `nodes, `byId
      ensures Valid() && book == P.Remove(old(book), key)
    {
      ghost var st := St();
      var loc := byId[key];
      var s := Spot(loc.side, loc.price);
      ErasedEdits(st, key, loc, s);
      if s !in levels { assert false; }
      var size := nodes[loc.it].size;
      if levels[s].totalSize < size { assert false; }
      levels := levels[s := PriceLevel(Without(levels[s].orders, loc.it), levels[s].totalSize - size)];
      nodes := nodes - {loc.it};
      EraseLevelIfEmpty(s);
      byId := byId - {key};
      assert St() == Erased(st, key);
      ErasedView(st, key);
      P.RemoveKeeps(View(st), key);
      book := View(St());
    }

    method DeleteImpl(key: OrderKey) returns (found: bool)
      requires Valid()
      modifies `book, `levels, `nodes, `byId
      ensures Valid() && found == (key in old(book.orders))
      ensures book == P.Delete(old(book), key) && L.Deletes(old(book), book, key, found)
      ensures key !in byId
    {
      L.DeleteMeans(book, key);
      if key !in byId { return false; }
      Unlink(key);
      assert key !in book.orders;
      return true;
    }

    method EraseLevelIfEmpty(s: Spot)
      requires s in levels
      modifies `levels
      ensures levels == PutLevel(old(levels), s, old(levels[s]))
    {
      if levels[s].orders == [] {
        levels := levels - {s};
      }
    }

    /** The list, total and index edits of a new order at the back of its level. */
    method Link(o: Order)
      modifies `levels, `nodes, `next, `byId
      ensures St() == Appended(old(St()), o)
    {
      var s := SpotOf(o);
      if s !in levels { levels := levels[s := PriceLevel([], 0)]; }
      nodes := nodes[next := o];
      levels := levels[s := PriceLevel(levels[s].orders + [next], levels[s].totalSize + o.size)];
      byId := byId[o.key := Locator(o.side, o.price, next)];
      next := next + 1;
    }

    method PushBack(o: Order)
      requires Valid() && o.key !in byId
      modifies `book, `levels, `nodes, `next, `byId
      ensures Valid() && book == P.Append(old(book), o)
    {
      ghost var st := St();
      AppendedView(st, o);
      P.AppendKeeps(View(st), o);
      Link(o);
      book := View(St());
    }

    method AddImpl(o: Order)
      requires Valid()
      modifies `book, `levels, `nodes, `next, `byId
      ensures Valid() && book == P.Add(old(book), o) && L.Arrives(old(book), book, o)
    {
      L.AddMeans(book, o);
      if o.key in byId {
        var _ := DeleteImpl(o.key);
      }
      PushBack(o);
    }

    method SetSize(key: OrderKey, size: nat)
      requires Valid() && key in byId
      modifies `book, `levels, `nodes
      ensures Valid() && book == P.Resize(old(book), key, size)
    {
      ghost var st := St();
      assert KeyOk(st, key);
      var h := byId[key].it;
      var ord := nodes[h];
      var s := SpotOf(ord);
      ResizedEdits(st, key, size, h, s);
      if size > ord.size {
        levels := levels[s := levels[s].(totalSize := levels[s].totalSize + (size - ord.size))];
      } else {
        levels := levels[s := levels[s].(totalSize := levels[s].totalSize - (ord.size - size))];
      }
      nodes := nodes[h := ord.(size := size)];
      assert St() == Resized(st, key, size);
      ResizedView(st, key, size);
      P.ResizeKeeps(View(st), key, size);
      book := View(St());
    }

    method UpdateImpl(key: OrderKey, price: Option<int>, size: Option<nat>) returns (changed: bool)
      requires Valid()
      modifies `book, `levels, `nodes, `next, `byId
      ensures Valid() && (book, changed) == P.Update(old(book), key, price, size)
      ensures L.Updates(old(book), book, key, price, size, changed)
    {
      L.UpdateMeans(book, key, price, size);
      if key !in byId { return false; }
      assert KeyOk(St(), key);
      var ord := nodes[byId[key].it];
      assert book.orders[key] == ord && ord.key == key;
      var tgtPrice := if price.Some? then price.value else ord.price;
      var tgtSize := if size.Some? then size.value else ord.size;
      if tgtSize == 0 {
        Unlink(key);
        return true;
      }
      if tgtPrice == ord.price {
        SetSize(key, tgtSize);
        return tgtSize != ord.size;
      }
      Unlink(key);
      assert key !in book.orders;
      PushBack(ord.(price := tgtPrice, size := tgtSize));
      return true;
    }

    /** The splice to the back of the list is an unlink and a relink of the same node. */
    method Splice(s: Spot, h: Node)
      requires s in levels && h in levels[s].orders
      requires levels[s].orders[|levels[s].orders| - 1] == h ==> Without(levels[s].orders, h) + [h] == levels[s].orders
      modifies `levels
      ensures levels == old(levels)[s := old(levels[s]).(orders := Without(old(levels[s].orders), h) + [h])]
    {
      var q := levels[s].orders;
      if q[|q| - 1] != h {
        levels := levels[s := levels[s].(orders := Without(q, h) + [h])];
      }
    }

    /** The node edits of a priority change. */
    method Shift(s: Spot, h: Node, priority: nat)
      requires s in levels && h in levels[s].orders && h in nodes
      requires levels[s].orders[|levels[s].orders| - 1] == h ==> Without(levels[s].orders, h) + [h] == levels[s].orders
      modifies `levels, `nodes
      ensures St() == old(St()).(
        levels := old(levels)[s := old(levels[s]).(orders := Without(old(levels[s].orders), h) + [h])],
        nodes := old(nodes)[h := old(nodes[h]).(priority := priority)])
    {
      nodes := nodes[h := nodes[h].(priority := priority)];
      Splice(s, h);
    }

    method PriorityImpl(key: OrderKey, priority: nat) returns (changed: bool)
      requires Valid()
      modifies `book, `levels, `nodes
      ensures Valid() && (book, changed) == P.Reprioritise(old(book), key, priority)
      ensures L.Prioritises(old(book), book, key, priority, changed)
    {
      L.PriorityMeans(book, key, priority);
      if key !in byId { return false; }
      changed := Rank(key, priority);
    }

    /** Give a live order its priority; a changed one sends it to the back. */
    method Rank(key: OrderKey, priority: nat) returns (changed: bool)
      requires Valid() && key in byId
      modifies `book, `levels, `nodes
      ensures Valid() && (book, changed) == P.Reprioritise(old(book), key, priority)
    {
      ghost var st := St();
      var loc := byId[key];
      var s := Spot(loc.side, loc.price);
      RequeuedEdits(st, key, priority, loc, s);
      if s !in levels { assert false; }
      var ord := nodes[loc.it];
      if ord.priority == priority { return false; }
      RequeuedIsReprioritised(st, key, priority);
      ghost var r := Requeued(st, key, priority);
      Shift(s, loc.it, priority);
      assert St() == r;
      book := View(r);
      return true;
    }

    // ---------- Trades ----------

    /** The store once an emptied level at `s` has been dropped. */
    ghost function Settled(s: Spot): Store
      requires s in levels
      reads this
    {
      Store(PutLevel(levels, s, levels[s]), nodes, next, byId)
    }

    /** One turn of the consume loop: take from the front order, unlink it if it is used up. */
    method TakeFront(s: Spot, remaining: nat) returns (left: nat)
      requires FrontOk(St(), s)
      modifies `levels, `nodes, `byId
      ensures s in levels && Settled(s) == FrontTaken(old(St()), s, TakeOf(old(St()), s, remaining))
      ensures left == remaining - TakeOf(old(St()), s, remaining)
      ensures |levels[s].orders| <= old(|levels[s].orders|)
      ensures left == 0 || |levels[s].orders| < old(|levels[s].orders|)
    {
      var h := levels[s].orders[0];
      var top, lvl := nodes[h], levels[s];
      var take := if top.size <= remaining then top.size else remaining;
      nodes := nodes[h := top.(size := top.size - take)];
      left := remaining - take;
      levels := levels[s := lvl.(totalSize := lvl.totalSize - take)];
      if nodes[h].size == 0 {
        if top.key !in byId { assert false; }
        byId := byId - {top.key};
        levels := levels[s := PriceLevel(lvl.orders[1..], lvl.totalSize - take)];
        nodes := nodes - {h};
      }
    }

    method ConsumeAtLevel(s: Spot, qty: nat) returns (consumed: nat)
      requires Valid()
      modifies `book, `levels, `nodes, `byId
      ensures Valid() && book == P.Consume(old(book), s, qty)
      ensures consumed == P.Fill(old(book), s, qty) && L.Fills(old(book), book, s, qty)
    {
      L.ConsumeMeans(book, s, qty);
      TotalIsCached(St(), s);
      if s !in levels || qty == 0 { return 0; }
      assert LevelOk(St(), s);
      assert St() == Settled(s);
      FillingStarts(St(), s, qty);
      var remaining := TakeAll(s, qty, book);
      FillingDone(Settled(s), s, book, qty, remaining);
      Settle(s);
      consumed := qty - remaining;
    }

    /** The consume loop: front orders until the quantity or the level is used up. */
    method TakeAll(s: Spot, qty: nat, ghost was: P.PlainBook) returns (remaining: nat)
      requires s in levels && P.WellFormed(was) && Filling(Settled(s), s, was, qty, qty)
      modifies `levels, `nodes, `byId
      ensures s in levels && Filling(Settled(s), s, was, qty, remaining)
      ensures remaining == 0 || levels[s].orders == []
    {
      remaining := qty;
      while remaining > 0 && levels[s].orders != []
        invariant s in levels && Filling(Settled(s), s, was, qty, remaining)
        decreases |levels[s].orders| + (if remaining > 0 then 1 else 0)
      {
        remaining := TakeTurn(s, remaining, was, qty);
      }
    }

    method TakeTurn(s: Spot, remaining: nat, ghost was: P.PlainBook, ghost qty: nat) returns (left: nat)
      requires s in levels && levels[s].orders != [] && remaining > 0
      requires P.WellFormed(was) && Filling(Settled(s), s, was, qty, remaining)
      modifies `levels, `nodes, `byId
      ensures s in levels && Filling(Settled(s), s, was, qty, left)
      ensures |levels[s].orders| <= old(|levels[s].orders|)
      ensures left == 0 || |levels[s].orders| < old(|levels[s].orders|)
    {
      ghost var g := Settled(s);
      assert St() == g;
      FrontTakenKeeps(g, s, was, qty, remaining);
      left := TakeFront(s, remaining);
    }

    /** Drop the level if it was emptied; the abstract book follows. */
    method Settle(s: Spot)
      requires s in levels && Consistent(Settled(s)) && P.WellFormed(View(Settled(s)))
      modifies `book, `levels
      ensures Valid() && book == old(View(Settled(s)))
    {
      ghost var g := Settled(s);
      EraseLevelIfEmpty(s);
      assert St() == g;
      book := View(g);
    }

    method ApplyTrade(price: int, qty: nat, aggr: Aggressor) returns (consumed: bool)
      requires Valid()
      modifies `book, `levels, `nodes, `byId
      ensures Valid() && book == P.Trade(old(book), price, qty, aggr)
      ensures var side := P.PassiveSide(old(book), price, aggr);
        consumed == (side.Some? && P.Fill(old(book), Spot(side.value, price), qty) > 0)
      ensures L.Trades(old(book), book, price, qty, aggr) && consumed == L.Finds(old(book), price, qty, aggr)
    {
      L.TradeMeans(book, price, qty, aggr);
      if qty == 0 { return false; }
      var passive;
      if aggr == Buy {
        passive := Ask;
      } else if aggr == Sell {
        passive := Bid;
      } else {
        var bid := BestPrice(Bid);
        var ask := BestPrice(Ask);
        if bid.Some? && price <= bid.value {
          passive := Bid;
        } else if ask.Some? && price >= ask.value {
          passive := Ask;
        } else {
          return false;
        }
      }
      var n := ConsumeAtLevel(Spot(passive, price), qty);
      return n > 0;
    }

    // ---------- Queries ----------

    method BestPrice(side: Side) returns (r: Option<int>)
      requires Valid()
      ensures r == P.BestPrice(book, side)
    {
      var prices := P.Prices(levels.Keys, side);
      assert levels.Keys == book.queues.Keys;
      if prices == {} { return None; }
      P.BestExists(side, prices);
      var p :| p in prices && P.IsBest(side, prices, p);
      return Some(p);
    }

    method LevelSize(s: Spot) returns (size: nat)
      requires Valid()
      ensures size == P.Total(book, s)
    {
      TotalIsCached(St(), s);
      if s in levels { return levels[s].totalSize; }
      return 0;
    }

    /** The size shown beside the best price; 0 on an empty side. */
    method BestSize(side: Side) returns (size: nat)
      requires Valid()
      ensures var p := P.BestPrice(book, side);
        size == if p.None? then 0 else P.Total(book, Spot(side, p.value))
    {
      var p := BestPrice(side);
      if p.None? { return 0; }
      size := LevelSize(Spot(side, p.value));
    }

    method Locate(key: OrderKey) returns (r: Option<Spot>)
      requires Valid()
      ensures r == if key in book.orders then Some(SpotOf(book.orders[key])) else None
    {
      if key !in byId { return None; }
      assert KeyOk(St(), key) && NodeOk(St(), byId[key].it);
      return Some(Spot(byId[key].side, byId[key].price));
    }

    /** Walk the ladder's prices from the best, stopping after `n`. */
    static method FirstPrices(side: Side, prices: set<int>, n: nat) returns (out: seq<int>)
      ensures |out| == if n <= |prices| then n else |prices|
      ensures out == P.Ladder(side, prices)[..|out|]
    {
      out := [];
      var rest := prices;
      while |out| < n && rest != {}
        invariant |out| <= n && |out| + |rest| == |prices|
        invariant P.Ladder(side, prices) == out + P.Ladder(side, rest)
        decreases rest
      {
        P.BestExists(side, rest);
        var p :| p in rest && P.IsBest(side, rest, p);
        P.LadderTurn(side, prices, out, rest, p);
        out := out + [p];
        rest := rest - {p};
      }
    }

    /** The `n` best levels of one side with their totals, best first. */
    method ForEachLevel(side: Side, n: nat) returns (out: seq<(int, nat)>)
      requires Valid()
      ensures out == P.TopLevels(book, side, n)
    {
      assert levels.Keys == book.queues.Keys;
      var prices := FirstPrices(side, P.Prices(levels.Keys, side), n);
      out := [];
      for i := 0 to |prices|
        invariant |out| == i
        invariant forall j :: 0 <= j < i ==> out[j] == (prices[j], P.Total(book, Spot(side, prices[j])))
      {
        var size := LevelSize(Spot(side, prices[i]));
        out := out + [(prices[i], size)];
      }
      P.AreTopLevels(book, side, n, prices, out);
    }

    // ---------- Adds, snapshots and summaries ----------

    method NextSyntheticId(scope: Scope) returns (id: nat)
      modifies `synthCounters
      ensures id == P.NextId(old(synthCounters), scope)
      ensures synthCounters == old(synthCounters)[scope := id + 1]
    {
      if scope !in synthCounters {
        synthCounters := synthCounters[scope := 1];
      }
      id := synthCounters[scope];
      synthCounters := synthCounters[scope := id + 1];
    }

    /** A scoped add; a missing or zero id is replaced by the scope's next synthetic id. */
    method ApplyAdd(o: Order, scope: Scope, idMissing: bool) returns (key: OrderKey)
      requires Valid()
      modifies `book, `levels, `nodes, `next, `byId, `synthCounters
      ensures Valid() && key == P.ScopedKey(old(synthCounters), o.key, scope, idMissing)
      ensures book == P.Add(old(book), o.(key := key))
      ensures synthCounters == P.CountersAfter(old(synthCounters), o.key, scope, idMissing)
    {
      var copy := o.(key := o.key.(scope := scope));
      if idMissing || copy.key.id == 0 {
        var id := NextSyntheticId(scope);
        copy := copy.(key := OrderKey(id, scope, true));
      }
      AddImpl(copy);
      return copy.key;
    }

    method Clear()
      modifies `book, `levels, `nodes, `byId
      ensures Valid() && book == P.EMPTY
    {
      levels, nodes, byId, book := map[], map[], map[], P.EMPTY;
      assert View(St()) == P.EMPTY;
    }

    method ApplySnapshotPerOrder(orders: seq<Order>)
      requires Valid()
      modifies `book, `levels, `nodes, `next, `byId
      ensures Valid() && book == P.AddAll(P.EMPTY, orders)
    {
      Clear();
      for i := 0 to |orders|
        invariant Valid() && book == P.AddAll(P.EMPTY, orders[..i])
      {
        P.AddAllStep(P.EMPTY, orders, i);
        AddImpl(orders[i]);
      }
      assert orders[..|orders|] == orders;
    }

    method ApplySnapshotAggregated(entries: seq<(Spot, LevelAgg)>)
      modifies `aggLevels
      ensures aggLevels == P.AggSnapshot(entries)
    {
      aggLevels := map[];
      for i := 0 to |entries|
        invariant aggLevels == P.AggSnapshot(entries[..i])
      {
        if entries[i].1.totalSize != 0 {
          aggLevels := aggLevels[entries[i].0 := entries[i].1];
        }
        assert entries[..i + 1][..i] == entries[..i];
      }
      assert entries[..|entries|] == entries;
    }

    method ApplyLevelSummary(s: Spot, totalSize: nat, orderCount: Option<nat>) returns (changed: bool)
      modifies `aggLevels
      ensures (aggLevels, changed) == P.AggSummary(old(aggLevels), s, totalSize, orderCount)
      ensures aggLevels - {s} == old(aggLevels) - {s} && (s in aggLevels <==> totalSize > 0)
      ensures s in aggLevels ==> aggLevels[s].totalSize == totalSize
      ensures s in aggLevels && orderCount.Some? ==> aggLevels[s].orderCount == orderCount.value
      ensures s in aggLevels && orderCount.None? && s in old(aggLevels)
        ==> aggLevels[s].orderCount == old(aggLevels[s].orderCount)
      ensures changed <==> totalSize == 0 || aggLevels != old(aggLevels)
    {
      if totalSize == 0 {
        aggLevels := aggLevels - {s};
        return true;
      }
      var lvl := if s in aggLevels then aggLevels[s] else LevelAgg(0, 0);
      changed := lvl.totalSize != totalSize || (orderCount.Some? && lvl.orderCount != orderCount.value);
      aggLevels := aggLevels[s := LevelAgg(totalSize, if orderCount.Some? then orderCount.value else lvl.orderCount)];
    }

    // ---------- Runs ----------

    method Apply(op: R.Op)
      requires Valid()
      modifies `book, `levels, `nodes, `next, `byId
      ensures Valid() && book == R.Apply(old(book), op) && L.Means(old(book), op, book)
    {
      L.ApplyMeans(book, op);
      match op
      case AddOp(o) => AddImpl(o);
      case UpdateOp(k, p, z) => var _ := UpdateImpl(k, p, z);
      case DeleteOp(k) => var _ := DeleteImpl(k);
      case PriorityOp(k, p) => var _ := PriorityImpl(k, p);
      case TradeOp(p, q, a) => var _ := ApplyTrade(p, q, a);
      case Clear => Clear();
    }
  }

  /**
   * After every run of operations the real structures agree with each other
   * (`Valid`) and stand for the abstract run.
   */
  method Drive(symbol: string, ops: seq<R.Op>) returns (b: OrderBook)
    ensures fresh(b) && b.Valid() && b.book == R.Run(ops)
  {
    b := new OrderBook(symbol);
    for i := 0 to |ops|
      invariant fresh(b) && b.Valid() && b.book == R.Run(ops[..i])
    {
      R.RunStep(ops, i);
      b.Apply(ops[i]);
    }
    assert ops[..|ops|] == ops;
  }
}
