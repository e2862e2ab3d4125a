/**
 * The order book as the program keeps it: price levels that are linked lists
 * with a cached total, and an index from keys to list positions. A list node
 * is a handle into `nodes`, so a dangling or shared iterator is expressible;
 * the bid and ask ladders are one map keyed by side and price.
 */
module BookStores {
  import opened Seqs
  import opened BookTypes
  import opened PlainBooks

  type Node = nat

  datatype Locator = Locator(side: Side, price: int, it: Node)

  datatype PriceLevel = PriceLevel(orders: seq<Node>, totalSize: nat)

  datatype Store = Store(
    levels: map<Spot, PriceLevel>,
    nodes: map<Node, Order>,
    next: Node,
    byId: map<OrderKey, Locator>)

  // ---------- What it means for the three structures to agree ----------

  ghost predicate LevelOk(st: Store, s: Spot)
    requires s in st.levels
  {
    var q := st.levels[s].orders;
    && q != [] && Distinct(q)
    && (forall h :: h in q ==> h in st.nodes && SpotOf(st.nodes[h]) == s)
    && st.levels[s].totalSize == Sum(NodeSizes(q, st.nodes))
  }

  ghost predicate NodeOk(st: Store, h: Node)
    requires h in st.nodes
  {
    var o := st.nodes[h];
    && o.key in st.byId && st.byId[o.key] == Locator(o.side, o.price, h)
    && SpotOf(o) in st.levels && h in st.levels[SpotOf(o)].orders
  }

  ghost predicate KeyOk(st: Store, k: OrderKey)
    requires k in st.byId
  {
    st.byId[k].it in st.nodes && st.nodes[st.byId[k].it].key == k
  }

  /** Index, nodes and queues are in bijection, and cached totals are exact. */
  ghost predicate Consistent(st: Store) {
    && (forall s {:trigger LevelOk(st, s)} :: s in st.levels ==> LevelOk(st, s))
    && (forall h {:trigger NodeOk(st, h)} :: h in st.nodes ==> NodeOk(st, h))
    && (forall k {:trigger KeyOk(st, k)} :: k in st.byId ==> KeyOk(st, k))
    && (forall h :: h in st.nodes ==> h < st.next)
  }

  function NodeSizes(q: seq<Node>, nodes: map<Node, Order>): seq<nat>
    requires forall h :: h in q ==> h in nodes
  {
    seq(|q|, i requires 0 <= i < |q| => nodes[q[i]].size)
  }

  function NodeKeys(q: seq<Node>, nodes: map<Node, Order>): seq<OrderKey>
    requires forall h :: h in q ==> h in nodes
  {
    seq(|q|, i requires 0 <= i < |q| => nodes[q[i]].key)
  }

  ghost function ViewOrders(st: Store): map<OrderKey, Order>
    requires Consistent(st)
  {
    map k | k in st.byId :: assert KeyOk(st, k); st.nodes[st.byId[k].it]
  }

  ghost function ViewQueues(st: Store): map<Spot, seq<OrderKey>>
    requires Consistent(st)
  {
    map s | s in st.levels :: assert LevelOk(st, s); NodeKeys(st.levels[s].orders, st.nodes)
  }

  /** The abstract book a consistent store stands for. */
  ghost function View(st: Store): PlainBook
    requires Consistent(st)
  {
    PlainBook(ViewOrders(st), ViewQueues(st))
  }

  lemma QueuedIsLive(st: Store, s: Spot, h: Node)
    requires Consistent(st) && s in st.levels && h in st.levels[s].orders
    ensures h in st.nodes && SpotOf(st.nodes[h]) == s
    ensures st.nodes[h].key in st.byId && ViewOrders(st)[st.nodes[h].key] == st.nodes[h]
    ensures st.byId[st.nodes[h].key].it == h
  {
    assert LevelOk(st, s);
    assert NodeOk(st, h);
  }

  lemma LiveIsQueued(st: Store, k: OrderKey)
    requires Consistent(st) && k in st.byId
    ensures ViewOrders(st)[k].key == k
    ensures SpotOf(ViewOrders(st)[k]) in st.levels
    ensures st.byId[k].it in st.levels[SpotOf(ViewOrders(st)[k])].orders
    ensures k in ViewQueues(st)[SpotOf(ViewOrders(st)[k])]
  {
    assert KeyOk(st, k);
    var h := st.byId[k].it;
    assert NodeOk(st, h);
    var q := st.levels[SpotOf(st.nodes[h])].orders;
    assert LevelOk(st, SpotOf(st.nodes[h]));
    assert NodeKeys(q, st.nodes)[IndexOf(q, h)] == k;
  }

  lemma ViewWellFormed(st: Store)
    requires Consistent(st)
    ensures WellFormed(View(st))
  {
    var b := View(st);
    forall s | s in b.queues ensures QueueOk(b, s) {
      assert LevelOk(st, s);
      var q := st.levels[s].orders;
      forall i, j | 0 <= i < j < |q| ensures b.queues[s][i] != b.queues[s][j] {
        QueuedIsLive(st, s, q[i]);
        QueuedIsLive(st, s, q[j]);
      }
      forall k | k in b.queues[s] ensures k in b.orders && SpotOf(b.orders[k]) == s {
        QueuedIsLive(st, s, q[IndexOf(b.queues[s], k)]);
      }
    }
    forall k | k in b.orders ensures OrderOk(b, k) {
      LiveIsQueued(st, k);
    }
  }

  /** The cached total is the abstract total. */
  lemma TotalIsCached(st: Store, s: Spot)
    requires Consistent(st) && WellFormed(View(st))
    ensures Total(View(st), s) == if s in st.levels then st.levels[s].totalSize else 0
  {
    if s in st.levels {
      assert LevelOk(st, s);
      var q := st.levels[s].orders;
      assert QueueOk(View(st), s);
      var sizes := SizesOf(ViewQueues(st)[s], ViewOrders(st));
      forall i | 0 <= i < |q| ensures sizes[i] == NodeSizes(q, st.nodes)[i] {
        QueuedIsLive(st, s, q[i]);
      }
      assert sizes == NodeSizes(q, st.nodes);
    }
  }

  // ---------- The three elementary changes ----------

  function PutLevel(levels: map<Spot, PriceLevel>, s: Spot, lvl: PriceLevel): map<Spot, PriceLevel> {
    if lvl.orders == [] then levels - {s} else levels[s := lvl]
  }

  /** Unlink one order: its list node, its share of the total, its index entry. */
  ghost function Erased(st: Store, k: OrderKey): Store
    requires Consistent(st) && k in st.byId
  {
    assert KeyOk(st, k);
    var h := st.byId[k].it;
    var o := st.nodes[h];
    assert NodeOk(st, h);
    var lvl := st.levels[SpotOf(o)];
    assert o.size <= lvl.totalSize by { SizeWithinTotal(st, h); }
    Store(PutLevel(st.levels, SpotOf(o), PriceLevel(Without(lvl.orders, h), lvl.totalSize - o.size)),
          st.nodes - {h}, st.next, st.byId - {k})
  }

  /** Link a new order at the back of its level. */
  function Appended(st: Store, o: Order): Store {
    var lvl := if SpotOf(o) in st.levels then st.levels[SpotOf(o)] else PriceLevel([], 0);
    Store(st.levels[SpotOf(o) := PriceLevel(lvl.orders + [st.next], lvl.totalSize + o.size)],
          st.nodes[st.next := o], st.next + 1, st.byId[o.key := Locator(o.side, o.price, st.next)])
  }

  /** Change an order's size where it stands. */
  ghost function Resized(st: Store, k: OrderKey, size: nat): Store
    requires Consistent(st) && k in st.byId
  {
    assert KeyOk(st, k);
    var h := st.byId[k].it;
    var o := st.nodes[h];
    assert NodeOk(st, h);
    var lvl := st.levels[SpotOf(o)];
    assert o.size <= lvl.totalSize by { SizeWithinTotal(st, h); }
    st.(levels := st.levels[SpotOf(o) := lvl.(totalSize := lvl.totalSize - o.size + size)],
        nodes := st.nodes[h := o.(size := size)])
  }

  /** The subtraction guards of the source never fire: an order is part of its level's total. */
  lemma SizeWithinTotal(st: Store, h: Node)
    requires Consistent(st) && h in st.nodes
    ensures SpotOf(st.nodes[h]) in st.levels && LevelOk(st, SpotOf(st.nodes[h]))
    ensures st.nodes[h].size <= st.levels[SpotOf(st.nodes[h])].totalSize
    ensures st.levels[SpotOf(st.nodes[h])].totalSize
         == st.nodes[h].size + Sum(NodeSizes(Without(st.levels[SpotOf(st.nodes[h])].orders, h), st.nodes))
  {
    assert NodeOk(st, h);
    var s := SpotOf(st.nodes[h]);
    assert LevelOk(st, s);
    SumWithout(st.levels[s].orders, h, st.nodes);
  }

  lemma SumWithout(q: seq<Node>, h: Node, nodes: map<Node, Order>)
    requires h in q && forall x :: x in q ==> x in nodes
    ensures Sum(NodeSizes(q, nodes)) == nodes[h].size + Sum(NodeSizes(Without(q, h), nodes))
  {
    var i, sizes := IndexOf(q, h), NodeSizes(q, nodes);
    SumErase(sizes, i);
    assert sizes[..i] + sizes[i + 1..] == NodeSizes(Without(q, h), nodes);
  }

  lemma KeysJoin(q: seq<Node>, r: seq<Node>, nodes: map<Node, Order>)
    requires (forall x :: x in q ==> x in nodes) && (forall x :: x in r ==> x in nodes)
    ensures NodeKeys(q + r, nodes) == NodeKeys(q, nodes) + NodeKeys(r, nodes)
  {
  }

  lemma KeysWithout(q: seq<Node>, h: Node, nodes: map<Node, Order>, k: OrderKey)
    requires h in q && (forall x :: x in q ==> x in nodes) && nodes[h].key == k
    requires forall j :: 0 <= j < |q| && q[j] != h ==> nodes[q[j]].key != k
    ensures NodeKeys(Without(q, h), nodes) == Without(NodeKeys(q, nodes), k)
  {
    var i, keys := IndexOf(q, h), NodeKeys(q, nodes);
    assert keys[i] == k && IndexOf(keys, k) == i;
    assert Without(keys, k) == keys[..i] + keys[i + 1..];
    assert Without(q, h) == q[..i] + q[i + 1..];
    KeysJoin(q[..i], q[i + 1..], nodes);
    assert NodeKeys(q[..i], nodes) == keys[..i];
    assert NodeKeys(q[i + 1..], nodes) == keys[i + 1..];
  }

  /** `Erased` in terms of the locator, as the program computes it. */
  lemma ErasedEdits(st: Store, k: OrderKey, loc: Locator, s: Spot)
    requires Consistent(st) && k in st.byId && loc == st.byId[k] && s == Spot(loc.side, loc.price)
    ensures s in st.levels && loc.it in st.nodes && st.nodes[loc.it].size <= st.levels[s].totalSize
    ensures Erased(st, k) == Store(
        PutLevel(st.levels, s, PriceLevel(Without(st.levels[s].orders, loc.it),
                                          st.levels[s].totalSize - st.nodes[loc.it].size)),
        st.nodes - {loc.it}, st.next, st.byId - {k})
  {
    assert KeyOk(st, k) && NodeOk(st, loc.it);
    SizeWithinTotal(st, loc.it);
  }

  lemma ResizedEdits(st: Store, k: OrderKey, size: nat, h: Node, s: Spot)
    requires Consistent(st) && k in st.byId && h == st.byId[k].it
    requires h in st.nodes ==> s == SpotOf(st.nodes[h])
    ensures s in st.levels && h in st.nodes && st.nodes[h].size <= st.levels[s].totalSize
    ensures Resized(st, k, size) == st.(
        levels := st.levels[s := st.levels[s].(totalSize := st.levels[s].totalSize - st.nodes[h].size + size)],
        nodes := st.nodes[h := st.nodes[h].(size := size)])
  {
    assert KeyOk(st, k) && NodeOk(st, h);
    SizeWithinTotal(st, h);
  }

  lemma RequeuedEdits(st: Store, k: OrderKey, priority: nat, loc: Locator, s: Spot)
    requires Consistent(st) && k in st.byId && loc == st.byId[k] && s == Spot(loc.side, loc.price)
    ensures s in st.levels && loc.it in st.nodes && loc.it in st.levels[s].orders && st.nodes[loc.it].key == k
    ensures ViewOrders(st)[k] == st.nodes[loc.it]
    ensures Requeued(st, k, priority) == st.(
        levels := st.levels[s := st.levels[s].(orders := Without(st.levels[s].orders, loc.it) + [loc.it])],
        nodes := st.nodes[loc.it := st.nodes[loc.it].(priority := priority)])
    ensures st.levels[s].orders[|st.levels[s].orders| - 1] == loc.it
      ==> Without(st.levels[s].orders, loc.it) + [loc.it] == st.levels[s].orders
  {
    assert KeyOk(st, k) && NodeOk(st, loc.it);
    assert LevelOk(st, s);
    SpliceLast(st.levels[s].orders, loc.it);
  }

  lemma SizesAgree(q: seq<Node>, m: map<Node, Order>, n: map<Node, Order>)
    requires forall h :: h in q ==> h in m && h in n && m[h].size == n[h].size
    ensures NodeSizes(q, m) == NodeSizes(q, n)
  {
  }

  lemma ErasedLevel(st: Store, k: OrderKey, x: Spot)
    requires Consistent(st) && k in st.byId && x in Erased(st, k).levels
    ensures LevelOk(Erased(st, k), x)
  {
    assert KeyOk(st, k);
    var h, t := st.byId[k].it, Erased(st, k);
    SizeWithinTotal(st, h);
    assert LevelOk(st, x);
    assert h !in t.levels[x].orders;
    SizesAgree(t.levels[x].orders, t.nodes, st.nodes);
  }

  lemma ErasedKeeps(st: Store, k: OrderKey)
    requires Consistent(st) && k in st.byId
    ensures Consistent(Erased(st, k))
  {
    assert KeyOk(st, k);
    var h, t := st.byId[k].it, Erased(st, k);
    assert NodeOk(st, h);
    forall x | x in t.levels ensures LevelOk(t, x) {
      ErasedLevel(st, k, x);
    }
    forall x | x in t.nodes ensures NodeOk(t, x) {
      assert NodeOk(st, x);
      assert x in Without(st.levels[SpotOf(st.nodes[x])].orders, h);
    }
    forall x | x in t.byId ensures KeyOk(t, x) {
      assert KeyOk(st, x) && NodeOk(st, st.byId[x].it);
    }
  }

  /** Unlinking a node is erasing its key from the key queue. */
  lemma ErasedKeys(st: Store, k: OrderKey)
    requires Consistent(st) && k in st.byId
    ensures var s := SpotOf(ViewOrders(st)[k]);
      && s in st.levels && LevelOk(st, s)
      && NodeKeys(Without(st.levels[s].orders, st.byId[k].it), st.nodes) == Without(ViewQueues(st)[s], k)
  {
    LiveIsQueued(st, k);
    var h, s := st.byId[k].it, SpotOf(ViewOrders(st)[k]);
    assert LevelOk(st, s);
    var q := st.levels[s].orders;
    forall j | 0 <= j < |q| && q[j] != h ensures st.nodes[q[j]].key != k {
      QueuedIsLive(st, s, q[j]);
    }
    KeysWithout(q, h, st.nodes, k);
  }

  lemma ErasedQueues(st: Store, k: OrderKey)
    requires Consistent(st) && k in st.byId && Consistent(Erased(st, k))
    ensures ViewQueues(Erased(st, k)) == Remove(View(st), k).queues
  {
    ErasedKeys(st, k);
    var t, s := Erased(st, k), SpotOf(ViewOrders(st)[k]);
    var left := Without(ViewQueues(st)[s], k);
    forall x | x in t.levels ensures x in st.levels && ViewQueues(t)[x] == if x == s then left else ViewQueues(st)[x] {
      ErasedQueueAt(st, k, x);
    }
    assert t.levels.Keys == if left == [] then st.levels.Keys - {s} else st.levels.Keys by { ErasedSpots(st, k); }
    IsPutQueue(ViewQueues(t), ViewQueues(st), s, left);
  }

  lemma IsPutQueue(n: map<Spot, seq<OrderKey>>, m: map<Spot, seq<OrderKey>>, s: Spot, q: seq<OrderKey>)
    requires n.Keys == if q == [] then m.Keys - {s} else m.Keys + {s}
    requires forall x :: x in n.Keys ==> n[x] == if x != s && x in m then m[x] else q
    ensures n == PutQueue(m, s, q)
  {
  }

  lemma ErasedSpots(st: Store, k: OrderKey)
    requires Consistent(st) && k in st.byId
    ensures var s := SpotOf(ViewOrders(st)[k]);
      && s in st.levels && s in ViewQueues(st)
      && Erased(st, k).levels.Keys
         == if Without(ViewQueues(st)[s], k) == [] then st.levels.Keys - {s} else st.levels.Keys
  {
    ErasedKeys(st, k);
  }

  lemma ErasedQueueAt(st: Store, k: OrderKey, x: Spot)
    requires Consistent(st) && k in st.byId && Consistent(Erased(st, k)) && x in Erased(st, k).levels
    ensures x in st.levels
    ensures ViewQueues(Erased(st, k))[x]
         == if x == SpotOf(ViewOrders(st)[k]) then Without(ViewQueues(st)[x], k) else ViewQueues(st)[x]
  {
    ErasedKeys(st, k);
    var t := Erased(st, k);
    assert LevelOk(st, x) && LevelOk(t, x);
    KeysAgree(t.levels[x].orders, t.nodes, st.nodes);
  }

  lemma ErasedView(st: Store, k: OrderKey)
    requires Consistent(st) && k in st.byId
    ensures Consistent(Erased(st, k)) && View(Erased(st, k)) == Remove(View(st), k)
  {
    ErasedKeeps(st, k);
    ErasedQueues(st, k);
    var t := Erased(st, k);
    forall x | x in t.byId ensures ViewOrders(t)[x] == ViewOrders(st)[x] {
      assert KeyOk(t, x) && KeyOk(st, x);
    }
    assert ViewOrders(t) == Remove(View(st), k).orders;
  }

  lemma AppendedLevel(st: Store, o: Order, x: Spot)
    requires Consistent(st) && x in Appended(st, o).levels
    ensures LevelOk(Appended(st, o), x)
  {
    var t := Appended(st, o);
    if x in st.levels {
      assert LevelOk(st, x);
      var q := st.levels[x].orders;
      assert st.next !in q;
      SizesAgree(q, t.nodes, st.nodes);
      if x == SpotOf(o) {
        assert NodeSizes(q + [st.next], t.nodes) == NodeSizes(q, t.nodes) + [o.size];
        SumAppend(NodeSizes(q, t.nodes), [o.size]);
      }
    }
  }

  lemma AppendedKeeps(st: Store, o: Order)
    requires Consistent(st) && o.key !in st.byId
    ensures Consistent(Appended(st, o))
  {
    var t := Appended(st, o);
    forall x | x in t.levels ensures LevelOk(t, x) {
      AppendedLevel(st, o, x);
    }
    forall h | h in t.nodes ensures NodeOk(t, h) {
      if h != st.next { assert NodeOk(st, h); }
    }
    forall x | x in t.byId ensures KeyOk(t, x) {
      if x != o.key { assert KeyOk(st, x); }
    }
  }

  lemma AppendedKeys(st: Store, o: Order, x: Spot)
    requires Consistent(st) && o.key !in st.byId && Consistent(Appended(st, o))
    requires x in Appended(st, o).levels
    ensures x != SpotOf(o) ==> x in st.levels && ViewQueues(Appended(st, o))[x] == ViewQueues(st)[x]
    ensures x == SpotOf(o) ==> ViewQueues(Appended(st, o))[x] == QueueAt(View(st), x) + [o.key]
  {
    var t := Appended(st, o);
    assert LevelOk(t, x);
    if x in st.levels {
      assert LevelOk(st, x);
      var q := st.levels[x].orders;
      KeysAgree(q, t.nodes, st.nodes);
      if x == SpotOf(o) { KeysPush(q, st.next, t.nodes); }
    }
  }

  lemma AppendedQueues(st: Store, o: Order)
    requires Consistent(st) && o.key !in st.byId && Consistent(Appended(st, o))
    ensures ViewQueues(Appended(st, o)) == Append(View(st), o).queues
  {
    forall x | x in Appended(st, o).levels
      ensures x != SpotOf(o) ==> x in st.levels && ViewQueues(Appended(st, o))[x] == ViewQueues(st)[x]
      ensures x == SpotOf(o) ==> ViewQueues(Appended(st, o))[x] == QueueAt(View(st), x) + [o.key]
    {
      AppendedKeys(st, o, x);
    }
    AreAppended(st, Appended(st, o), SpotOf(o), o.key);
  }

  lemma AreAppended(st: Store, t: Store, s: Spot, k: OrderKey)
    requires Consistent(st) && Consistent(t) && t.levels.Keys == st.levels.Keys + {s}
    requires forall x :: x in t.levels && x != s ==> x in st.levels && ViewQueues(t)[x] == ViewQueues(st)[x]
    requires ViewQueues(t)[s] == QueueAt(View(st), s) + [k]
    ensures ViewQueues(t) == PutQueue(ViewQueues(st), s, QueueAt(View(st), s) + [k])
  {
    IsPutQueue(ViewQueues(t), ViewQueues(st), s, QueueAt(View(st), s) + [k]);
  }

  lemma AppendedView(st: Store, o: Order)
    requires Consistent(st) && o.key !in st.byId
    ensures Consistent(Appended(st, o)) && View(Appended(st, o)) == Append(View(st), o)
  {
    AppendedKeeps(st, o);
    AppendedQueues(st, o);
    AppendedOrders(st, o);
  }

  lemma AppendedOrders(st: Store, o: Order)
    requires Consistent(st) && o.key !in st.byId && Consistent(Appended(st, o))
    ensures ViewOrders(Appended(st, o)) == ViewOrders(st)[o.key := o]
  {
    var t := Appended(st, o);
    forall x | x in st.byId ensures ViewOrders(t)[x] == ViewOrders(st)[x] {
      assert KeyOk(t, x) && KeyOk(st, x);
    }
    assert KeyOk(t, o.key);
  }

  lemma ResizedKeeps(st: Store, k: OrderKey, size: nat)
    requires Consistent(st) && k in st.byId
    ensures Consistent(Resized(st, k, size))
  {
    var t := Resized(st, k, size);
    assert KeyOk(st, k);
    var h := st.byId[k].it;
    assert NodeOk(st, h);
    SizeWithinTotal(st, h);
    forall x | x in t.levels ensures LevelOk(t, x) {
      assert LevelOk(st, x);
      var q := st.levels[x].orders;
      if h in q {
        var i := IndexOf(q, h);
        assert NodeSizes(q, t.nodes) == NodeSizes(q, st.nodes)[i := size];
        SumReplace(NodeSizes(q, st.nodes), i, size);
      } else {
        assert NodeSizes(q, t.nodes) == NodeSizes(q, st.nodes);
      }
    }
    forall x | x in t.nodes ensures NodeOk(t, x) {
      assert NodeOk(st, x);
    }
    forall x | x in t.byId ensures KeyOk(t, x) {
      assert KeyOk(st, x);
    }
  }

  lemma ResizedView(st: Store, k: OrderKey, size: nat)
    requires Consistent(st) && k in st.byId
    ensures Consistent(Resized(st, k, size)) && View(Resized(st, k, size)) == Resize(View(st), k, size)
  {
    ResizedKeeps(st, k, size);
    var t := Resized(st, k, size);
    assert KeyOk(st, k) && NodeOk(st, st.byId[k].it);
    forall x | x in t.levels ensures ViewQueues(t)[x] == ViewQueues(st)[x] {
      assert LevelOk(st, x) && LevelOk(t, x);
      assert NodeKeys(t.levels[x].orders, t.nodes) == NodeKeys(st.levels[x].orders, st.nodes);
    }
    assert ViewQueues(t) == ViewQueues(st);
    forall x | x in st.byId ensures ViewOrders(t)[x] == Resize(View(st), k, size).orders[x] {
      assert KeyOk(t, x) && KeyOk(st, x);
    }
    assert ViewOrders(t) == Resize(View(st), k, size).orders;
  }

  /** Move an order's node to the back of its level under a new priority. */
  ghost function Requeued(st: Store, k: OrderKey, priority: nat): Store
    requires Consistent(st) && k in st.byId
  {
    assert KeyOk(st, k);
    var h := st.byId[k].it;
    var o := st.nodes[h];
    assert NodeOk(st, h);
    var lvl := st.levels[SpotOf(o)];
    st.(levels := st.levels[SpotOf(o) := lvl.(orders := Without(lvl.orders, h) + [h])],
        nodes := st.nodes[h := o.(priority := priority)])
  }

  lemma RequeuedLevel(st: Store, k: OrderKey, priority: nat, x: Spot)
    requires Consistent(st) && k in st.byId && x in Requeued(st, k, priority).levels
    ensures LevelOk(Requeued(st, k, priority), x)
  {
    assert KeyOk(st, k);
    var t, h := Requeued(st, k, priority), st.byId[k].it;
    SizeWithinTotal(st, h);
    assert LevelOk(st, x);
    if x == SpotOf(st.nodes[h]) {
      var rest := Without(st.levels[x].orders, h);
      SizesAgree(rest + [h], t.nodes, st.nodes);
      assert NodeSizes(rest + [h], st.nodes) == NodeSizes(rest, st.nodes) + [st.nodes[h].size];
      SumAppend(NodeSizes(rest, st.nodes), [st.nodes[h].size]);
    } else {
      SizesAgree(st.levels[x].orders, t.nodes, st.nodes);
    }
  }

  lemma RequeuedKeeps(st: Store, k: OrderKey, priority: nat)
    requires Consistent(st) && k in st.byId
    ensures Consistent(Requeued(st, k, priority))
  {
    var t := Requeued(st, k, priority);
    assert KeyOk(st, k);
    var h := st.byId[k].it;
    assert NodeOk(st, h);
    forall x | x in t.levels ensures LevelOk(t, x) {
      RequeuedLevel(st, k, priority, x);
    }
    forall x | x in t.nodes ensures NodeOk(t, x) {
      assert NodeOk(st, x);
    }
    forall x | x in t.byId ensures KeyOk(t, x) {
      assert KeyOk(st, x);
    }
  }

  lemma KeysAgree(q: seq<Node>, m: map<Node, Order>, n: map<Node, Order>)
    requires forall h :: h in q ==> h in m && h in n && m[h].key == n[h].key
    ensures NodeKeys(q, m) == NodeKeys(q, n)
  {
  }

  lemma KeysPush(q: seq<Node>, h: Node, m: map<Node, Order>)
    requires h in m && forall x :: x in q ==> x in m
    ensures NodeKeys(q + [h], m) == NodeKeys(q, m) + [m[h].key]
  {
  }

  lemma RequeuedKeys(st: Store, k: OrderKey, priority: nat, x: Spot)
    requires Consistent(st) && k in st.byId && Consistent(Requeued(st, k, priority)) && x in st.levels
    ensures x in Requeued(st, k, priority).levels
    ensures ViewQueues(Requeued(st, k, priority))[x]
         == if x == SpotOf(ViewOrders(st)[k]) then Without(ViewQueues(st)[x], k) + [k] else ViewQueues(st)[x]
  {
    LiveIsQueued(st, k);
    ErasedKeys(st, k);
    var t := Requeued(st, k, priority);
    assert LevelOk(st, x) && LevelOk(t, x);
    var h := st.byId[k].it;
    if x == SpotOf(ViewOrders(st)[k]) {
      KeysAgree(Without(st.levels[x].orders, h), st.nodes, t.nodes);
      KeysPush(Without(st.levels[x].orders, h), h, t.nodes);
    } else {
      KeysAgree(st.levels[x].orders, st.nodes, t.nodes);
    }
  }

  lemma RequeuedQueues(st: Store, k: OrderKey, priority: nat)
    requires Consistent(st) && k in st.byId && Consistent(Requeued(st, k, priority))
    ensures ViewQueues(Requeued(st, k, priority))
         == Append(Remove(View(st), k), ViewOrders(st)[k].(priority := priority)).queues
  {
    LiveIsQueued(st, k);
    var t := Requeued(st, k, priority);
    var s := SpotOf(ViewOrders(st)[k]);
    BackOfQueue(View(st), k, ViewOrders(st)[k].(priority := priority));
    forall x | x in st.levels
      ensures x in t.levels && ViewQueues(t)[x] == ViewQueues(st)[s := Without(ViewQueues(st)[s], k) + [k]][x]
    {
      RequeuedKeys(st, k, priority, x);
    }
    RequeuedSpots(st, k, priority);
    assert ViewQueues(t) == ViewQueues(st)[s := Without(ViewQueues(st)[s], k) + [k]];
  }

  lemma RequeuedSpots(st: Store, k: OrderKey, priority: nat)
    requires Consistent(st) && k in st.byId
    ensures Requeued(st, k, priority).levels.Keys == st.levels.Keys
  {
    assert KeyOk(st, k) && NodeOk(st, st.byId[k].it);
  }

  /** Taking an order out and queueing it again at its price moves its key to the back. */
  lemma BackOfQueue(b: PlainBook, k: OrderKey, o: Order)
    requires k in b.orders && o.key == k && SpotOf(o) == SpotOf(b.orders[k]) && SpotOf(o) in b.queues
    ensures Append(Remove(b, k), o).queues == b.queues[SpotOf(o) := Without(b.queues[SpotOf(o)], k) + [k]]
  {
  }

  lemma RequeuedView(st: Store, k: OrderKey, priority: nat)
    requires Consistent(st) && k in st.byId
    ensures Consistent(Requeued(st, k, priority))
    ensures View(Requeued(st, k, priority))
         == Append(Remove(View(st), k), ViewOrders(st)[k].(priority := priority))
  {
    RequeuedKeeps(st, k, priority);
    RequeuedQueues(st, k, priority);
    RequeuedOrders(st, k, priority);
    LiveIsQueued(st, k);
    Reinserted(ViewOrders(st), k, ViewOrders(st)[k].(priority := priority));
  }

  lemma RequeuedOrders(st: Store, k: OrderKey, priority: nat)
    requires Consistent(st) && k in st.byId && Consistent(Requeued(st, k, priority))
    ensures ViewOrders(Requeued(st, k, priority)) == ViewOrders(st)[k := ViewOrders(st)[k].(priority := priority)]
  {
    var t := Requeued(st, k, priority);
    forall x | x in t.byId
      ensures ViewOrders(t)[x] == if x == k then ViewOrders(st)[k].(priority := priority) else ViewOrders(st)[x]
    {
      assert KeyOk(t, x) && KeyOk(st, x) && KeyOk(st, k);
    }
  }

  lemma Reinserted(m: map<OrderKey, Order>, k: OrderKey, o: Order)
    requires k in m
    ensures (m - {k})[k := o] == m[k := o]
  {
  }

  lemma RequeuedIsReprioritised(st: Store, k: OrderKey, priority: nat)
    requires Consistent(st) && WellFormed(View(st)) && k in st.byId && ViewOrders(st)[k].priority != priority
    ensures Consistent(Requeued(st, k, priority)) && WellFormed(View(Requeued(st, k, priority)))
    ensures (View(Requeued(st, k, priority)), true) == Reprioritise(View(st), k, priority)
  {
    RequeuedView(st, k, priority);
    ViewWellFormed(Requeued(st, k, priority));
  }

  // ---------- One turn of the consume loop ----------

  /** The fill still owed on this store is the fill asked of `was`. */
  ghost predicate Owes(st: Store, s: Spot, was: PlainBook, qty: nat, remaining: nat)
    requires WellFormed(was)
  {
    && Consistent(st) && WellFormed(View(st)) && remaining <= qty
    && Consume(View(st), s, remaining) == Consume(was, s, qty)
    && qty - remaining + Fill(View(st), s, remaining) == Fill(was, s, qty)
  }

  /** What the consume loop keeps; there where `Unfold(0)` is asserted. */
  ghost predicate Filling(st: Store, s: Spot, was: PlainBook, qty: nat, remaining: nat)
    requires WellFormed(was)
  {
    forall n {:trigger Unfold(n)} :: Unfold(n) ==> Owes(st, s, was, qty, remaining)
  }

  lemma FillingStarts(st: Store, s: Spot, qty: nat)
    requires Consistent(st) && WellFormed(View(st))
    ensures Filling(st, s, View(st), qty, qty)
  {
  }

  lemma FillingDone(st: Store, s: Spot, was: PlainBook, qty: nat, remaining: nat)
    requires WellFormed(was) && Filling(st, s, was, qty, remaining) && (remaining == 0 || s !in st.levels)
    ensures Consistent(st) && WellFormed(View(st)) && remaining <= qty
    ensures View(st) == Consume(was, s, qty) && qty - remaining == Fill(was, s, qty)
  {
    assert Unfold(0);
    TotalIsCached(st, s);
  }

  lemma FrontOf(st: Store, s: Spot) returns (h: Node)
    requires Consistent(st) && s in st.levels
    ensures st.levels[s].orders != [] && h == st.levels[s].orders[0]
    ensures h in st.nodes && SpotOf(st.nodes[h]) == s
    ensures st.nodes[h].key in st.byId && st.byId[st.nodes[h].key].it == h
    ensures View(st).queues[s] != [] && View(st).queues[s][0] == st.nodes[h].key
    ensures View(st).orders[st.nodes[h].key] == st.nodes[h]
    ensures WellFormed(View(st)) && st.nodes[h].size <= st.levels[s].totalSize == Total(View(st), s)
  {
    assert LevelOk(st, s);
    h := st.levels[s].orders[0];
    QueuedIsLive(st, s, h);
    SizeWithinTotal(st, h);
    ViewWellFormed(st);
    TotalIsCached(st, s);
  }

  lemma ErasedFront(st: Store, s: Spot, h: Node)
    requires Consistent(st) && s in st.levels && st.levels[s].orders != [] && h == st.levels[s].orders[0]
    requires h in st.nodes && SpotOf(st.nodes[h]) == s && st.nodes[h].size <= st.levels[s].totalSize
    requires st.nodes[h].key in st.byId && st.byId[st.nodes[h].key].it == h
    ensures Erased(st, st.nodes[h].key) == Store(
        PutLevel(st.levels, s, PriceLevel(st.levels[s].orders[1..], st.levels[s].totalSize - st.nodes[h].size)),
        st.nodes - {h}, st.next, st.byId - {st.nodes[h].key})
  {
    assert Without(st.levels[s].orders, h) == st.levels[s].orders[1..];
  }

  lemma ErasedTotal(st: Store, k: OrderKey)
    requires Consistent(st) && k in st.byId && WellFormed(View(st)) && WellFormed(Remove(View(st), k))
    ensures var o := ViewOrders(st)[k];
      Total(Remove(View(st), k), SpotOf(o)) + o.size == Total(View(st), SpotOf(o))
  {
    LiveIsQueued(st, k);
    assert KeyOk(st, k);
    var h, s := st.byId[k].it, SpotOf(ViewOrders(st)[k]);
    SizeWithinTotal(st, h);
    ErasedView(st, k);
    TotalIsCached(st, s);
    TotalIsCached(Erased(st, k), s);
    if s !in Erased(st, k).levels {
      assert NodeSizes(Without(st.levels[s].orders, h), st.nodes) == [];
    }
  }

  lemma TakeWhole(st: Store, s: Spot, was: PlainBook, qty: nat, remaining: nat, k: OrderKey)
    requires WellFormed(was) && Owes(st, s, was, qty, remaining) && 0 < remaining && s in st.levels
    requires k in st.byId && View(st).queues[s] != [] && View(st).queues[s][0] == k
    requires SpotOf(View(st).orders[k]) == s && View(st).orders[k].size <= remaining
    ensures Owes(Erased(st, k), s, was, qty, remaining - View(st).orders[k].size)
  {
    ErasedView(st, k);
    RemoveKeeps(View(st), k);
    ErasedTotal(st, k);
  }

  lemma TakePart(st: Store, s: Spot, was: PlainBook, qty: nat, remaining: nat, k: OrderKey)
    requires WellFormed(was) && Owes(st, s, was, qty, remaining) && 0 < remaining && s in st.levels
    requires k in st.byId && View(st).queues[s] != [] && View(st).queues[s][0] == k
    requires remaining < View(st).orders[k].size <= Total(View(st), s)
    ensures Owes(Resized(st, k, View(st).orders[k].size - remaining), s, was, qty, 0)
  {
    var z := View(st).orders[k].size - remaining;
    ResizedView(st, k, z);
    ResizeKeeps(View(st), k, z);
    var t := View(Resized(st, k, z));
    assert Consume(View(st), s, remaining) == t;
    assert Consume(t, s, 0) == t && Fill(t, s, 0) == 0;
  }

  predicate FrontOk(st: Store, s: Spot) {
    && s in st.levels && st.levels[s].orders != [] && st.levels[s].orders[0] in st.nodes
    && var o := st.nodes[st.levels[s].orders[0]];
       o.size <= st.levels[s].totalSize && o.key in st.byId
  }

  function TakeOf(st: Store, s: Spot, remaining: nat): nat
    requires FrontOk(st, s)
  {
    var o := st.nodes[st.levels[s].orders[0]];
    if o.size <= remaining then o.size else remaining
  }

  /** The store after one turn of the loop, by plain edits of its maps. */
  function FrontTaken(st: Store, s: Spot, take: nat): Store
    requires FrontOk(st, s) && take <= st.nodes[st.levels[s].orders[0]].size
  {
    var h, lvl := st.levels[s].orders[0], st.levels[s];
    var o := st.nodes[h];
    if take == o.size then
      Store(PutLevel(st.levels, s, PriceLevel(lvl.orders[1..], lvl.totalSize - take)),
            st.nodes - {h}, st.next, st.byId - {o.key})
    else
      st.(levels := st.levels[s := lvl.(totalSize := lvl.totalSize - take)],
          nodes := st.nodes[h := o.(size := o.size - take)])
  }

  lemma ResizedFront(st: Store, s: Spot, h: Node, take: nat)
    requires Consistent(st) && FrontOk(st, s) && h == st.levels[s].orders[0] && take < st.nodes[h].size
    requires SpotOf(st.nodes[h]) == s && st.byId[st.nodes[h].key].it == h
    ensures FrontTaken(st, s, take) == Resized(st, st.nodes[h].key, st.nodes[h].size - take)
  {
    ResizedEdits(st, st.nodes[h].key, st.nodes[h].size - take, h, s);
  }

  lemma FrontTakenIs(st: Store, s: Spot, h: Node, take: nat)
    requires Consistent(st) && FrontOk(st, s) && h == st.levels[s].orders[0] && take <= st.nodes[h].size
    requires SpotOf(st.nodes[h]) == s && st.byId[st.nodes[h].key].it == h
    ensures var o := st.nodes[h];
      FrontTaken(st, s, take) == if take == o.size then Erased(st, o.key) else Resized(st, o.key, o.size - take)
  {
    if take == st.nodes[h].size { ErasedFront(st, s, h); } else { ResizedFront(st, s, h, take); }
  }

  lemma FrontTakenKeeps(st: Store, s: Spot, was: PlainBook, qty: nat, remaining: nat)
    requires WellFormed(was) && Filling(st, s, was, qty, remaining) && 0 < remaining && s in st.levels
    ensures FrontOk(st, s)
    ensures var take := TakeOf(st, s, remaining);
      take <= remaining && Filling(FrontTaken(st, s, take), s, was, qty, remaining - take)
  {
    assert Unfold(0);
    var h := FrontOf(st, s);
    var o := st.nodes[h];
    var take := TakeOf(st, s, remaining);
    FrontTakenIs(st, s, h, take);
    if take == o.size {
      TakeWhole(st, s, was, qty, remaining, o.key);
    } else {
      TakePart(st, s, was, qty, remaining, o.key);
    }
  }
}
