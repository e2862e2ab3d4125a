/**
 * What holds of the book over every run: fills are first-in-first-out, each
 * operation moves size only where it says, and a queue always stands in the
 * order in which its members were last sent to the back.
 */
module BookRuns {
  import opened Seqs
  import opened BookTypes
  import opened PlainBooks

  // ---------- How each change moves the totals ----------

  lemma SameSizes(q: seq<OrderKey>, m: map<OrderKey, Order>, n: map<OrderKey, Order>)
    requires forall k :: k in q ==> k in m && k in n && m[k].size == n[k].size
    ensures SizesOf(q, m) == SizesOf(q, n)
  {
  }

  lemma SizesWithout(q: seq<OrderKey>, k: OrderKey, orders: map<OrderKey, Order>)
    requires k in q && forall j :: j in q ==> j in orders
    ensures Sum(SizesOf(q, orders)) == orders[k].size + Sum(SizesOf(Without(q, k), orders))
  {
    var i, sizes := IndexOf(q, k), SizesOf(q, orders);
    SumErase(sizes, i);
    assert SizesOf(Without(q, k), orders) == sizes[..i] + sizes[i + 1..];
  }

  lemma RemoveTotalHere(b: PlainBook, k: OrderKey, s: Spot)
    requires WellFormed(b) && k in b.orders && WellFormed(Remove(b, k)) && s == SpotOf(b.orders[k])
    ensures Total(b, s) == Total(Remove(b, k), s) + b.orders[k].size
  {
    var r, q := Remove(b, k), QueueAt(b, s);
    assert OrderOk(b, k);
    assert QueueOk(b, s);
    SizesWithout(q, k, b.orders);
    SameSizes(Without(q, k), r.orders, b.orders);
  }

  lemma RemoveTotalElsewhere(b: PlainBook, k: OrderKey, s: Spot)
    requires WellFormed(b) && k in b.orders && WellFormed(Remove(b, k)) && s != SpotOf(b.orders[k])
    ensures Total(b, s) == Total(Remove(b, k), s)
  {
    if s in b.queues {
      assert QueueOk(b, s);
      SameSizes(b.queues[s], Remove(b, k).orders, b.orders);
    }
  }

  lemma RemoveTotal(b: PlainBook, k: OrderKey, s: Spot)
    requires WellFormed(b) && k in b.orders && WellFormed(Remove(b, k))
    ensures Total(b, s) == Total(Remove(b, k), s) + (if SpotOf(b.orders[k]) == s then b.orders[k].size else 0)
  {
    if SpotOf(b.orders[k]) == s { RemoveTotalHere(b, k, s); } else { RemoveTotalElsewhere(b, k, s); }
  }

  lemma AppendTotal(b: PlainBook, o: Order, s: Spot)
    requires WellFormed(b) && o.key !in b.orders && WellFormed(Append(b, o))
    ensures Total(Append(b, o), s) == Total(b, s) + (if SpotOf(o) == s then o.size else 0)
  {
    var r, q := Append(b, o), QueueAt(b, s);
    if s in b.queues { assert QueueOk(b, s); }
    assert SizesOf(q, r.orders) == SizesOf(q, b.orders);
    if SpotOf(o) == s {
      assert SizesOf(q + [o.key], r.orders) == SizesOf(q, b.orders) + [o.size];
      SumAppend(SizesOf(q, b.orders), [o.size]);
    }
  }

  lemma ResizeTotal(b: PlainBook, k: OrderKey, size: nat, s: Spot)
    requires WellFormed(b) && k in b.orders && WellFormed(Resize(b, k, size))
    ensures Total(Resize(b, k, size), s) + (if SpotOf(b.orders[k]) == s then b.orders[k].size else 0)
         == Total(b, s) + (if SpotOf(b.orders[k]) == s then size else 0)
  {
    var r, q := Resize(b, k, size), QueueAt(b, s);
    assert OrderOk(b, k);
    if s in b.queues { assert QueueOk(b, s); }
    if SpotOf(b.orders[k]) == s {
      var i := IndexOf(q, k);
      assert SizesOf(q, r.orders) == SizesOf(q, b.orders)[i := size];
      SumReplace(SizesOf(q, b.orders), i, size);
    } else {
      assert SizesOf(q, r.orders) == SizesOf(q, b.orders);
    }
  }

  /** One turn of a fill, stated without the totals' definition. */
  lemma ConsumeTurn(b: PlainBook, s: Spot, qty: nat) returns (k: OrderKey)
    requires WellFormed(b) && qty != 0 && s in b.queues
    ensures b.queues[s] != [] && k == b.queues[s][0] && k in b.orders && SpotOf(b.orders[k]) == s
    ensures WellFormed(Remove(b, k)) && QueueAt(Remove(b, k), s) == b.queues[s][1..]
    ensures Total(b, s) == Total(Remove(b, k), s) + b.orders[k].size
    ensures forall rest: nat :: qty == b.orders[k].size + rest ==>
      Consume(b, s, qty) == Consume(Remove(b, k), s, rest)
    ensures qty < b.orders[k].size ==> Consume(b, s, qty) == Resize(b, k, b.orders[k].size - qty)
  {
    assert QueueOk(b, s);
    k := b.queues[s][0];
    RemoveKeeps(b, k);
    RemoveTotal(b, k, s);
    assert QueueAt(Remove(b, k), s) == b.queues[s][1..];
  }

  /** A fill of `qty` at one price lowers that price's total by exactly min(qty, total)... */
  lemma {:induction false} ConsumeTotal(b: PlainBook, s: Spot, qty: nat)
    requires WellFormed(b)
    ensures Total(Consume(b, s, qty), s) == Total(b, s) - Fill(b, s, qty)
    decreases |QueueAt(b, s)|
  {
    if qty != 0 && s in b.queues {
      var k := ConsumeTurn(b, s, qty);
      var size := b.orders[k].size;
      if size <= qty {
        ConsumeTotal(Remove(b, k), s, qty - size);
      } else {
        ResizeKeeps(b, k, size - qty);
        ResizeTotal(b, k, size - qty, s);
      }
    }
  }

  /** ...and no other price's. */
  lemma {:induction false} ConsumeElsewhere(b: PlainBook, s: Spot, qty: nat, t: Spot)
    requires WellFormed(b) && t != s
    ensures Total(Consume(b, s, qty), t) == Total(b, t)
    decreases |QueueAt(b, s)|
  {
    if qty != 0 && s in b.queues {
      var k := ConsumeTurn(b, s, qty);
      var size := b.orders[k].size;
      if size <= qty {
        ConsumeElsewhere(Remove(b, k), s, qty - size, t);
        RemoveTotal(b, k, t);
        assert Total(b, t) == Total(Remove(b, k), t);
      } else {
        ResizeKeeps(b, k, size - qty);
        ResizeTotal(b, k, size - qty, t);
      }
    }
  }

  /** A fill never brings an order in. */
  lemma {:induction false} ConsumeOnlyRemoves(b: PlainBook, s: Spot, qty: nat, k: OrderKey)
    requires WellFormed(b)
    ensures k in Consume(b, s, qty).orders ==> k in b.orders
    decreases |QueueAt(b, s)|
  {
    if qty != 0 && s in b.queues {
      var j := ConsumeTurn(b, s, qty);
      if b.orders[j].size <= qty {
        var rest: nat := qty - b.orders[j].size;
        ConsumeOnlyRemoves(Remove(b, j), s, rest, k);
      }
    }
  }

  // ---------- Fills are first-in-first-out ----------

  /** How many orders at the front of a queue a fill of `qty` uses up. */
  function WholeFills(sizes: seq<nat>, qty: nat): (n: nat)
    ensures n <= |sizes|
  {
    if sizes == [] || qty == 0 || qty < sizes[0] then 0 else 1 + WholeFills(sizes[1..], qty - sizes[0])
  }

  /** What is left of `qty` for the next order. */
  function Residue(sizes: seq<nat>, qty: nat): nat {
    if sizes == [] || qty == 0 || qty < sizes[0] then qty else Residue(sizes[1..], qty - sizes[0])
  }

  /** The orders used up fit in `qty`; the next one is larger than what is left, or nothing is left. */
  lemma {:induction false} WholeFillsMaximal(sizes: seq<nat>, qty: nat)
    ensures var n := WholeFills(sizes, qty);
      && Sum(sizes[..n]) + Residue(sizes, qty) == qty
      && (n < |sizes| ==> Residue(sizes, qty) == 0 || Residue(sizes, qty) < sizes[n])
  {
    var n := WholeFills(sizes, qty);
    if n > 0 {
      WholeFillsMaximal(sizes[1..], qty - sizes[0]);
      assert sizes[..n][1..] == sizes[1..][..n - 1];
    }
  }

  lemma WholeFillsStep(sizes: seq<nat>, qty: nat, rest: nat)
    requires sizes != [] && qty != 0 && sizes[0] + rest == qty
    ensures WholeFills(sizes, qty) == WholeFills(sizes[1..], rest) + 1
    ensures Residue(sizes, qty) == Residue(sizes[1..], rest)
  {
  }

  function Members(q: seq<OrderKey>): set<OrderKey> {
    set k | k in q
  }

  /** The book with the first `n` orders of one price gone and `part` taken from the next. */
  function FrontFilled(b: PlainBook, s: Spot, n: nat, part: nat): PlainBook {
    var q := QueueAt(b, s);
    if n > |q| then b else
    PlainBook(Shrunk(b.orders - Members(q[..n]), q[n..], part), PutQueue(b.queues, s, q[n..]))
  }

  function Shrunk(orders: map<OrderKey, Order>, q: seq<OrderKey>, part: nat): map<OrderKey, Order> {
    if q == [] || q[0] !in orders || orders[q[0]].size < part then orders
    else orders[q[0] := orders[q[0]].(size := orders[q[0]].size - part)]
  }

  lemma FrontFilledStep(b: PlainBook, s: Spot, n: nat, part: nat)
    requires s in b.queues && n < |b.queues[s]| && b.queues[s][0] in b.orders
    requires SpotOf(b.orders[b.queues[s][0]]) == s
    requires QueueAt(Remove(b, b.queues[s][0]), s) == b.queues[s][1..]
    ensures FrontFilled(Remove(b, b.queues[s][0]), s, n, part) == FrontFilled(b, s, n + 1, part)
  {
    var q := b.queues[s];
    var c := Remove(b, q[0]);
    assert q[1..][n..] == q[n + 1..];
    MembersStep(b.orders, q, n);
    PutAfterPut(b.queues, s, Without(q, q[0]), q[n + 1..]);
  }

  lemma MembersStep(orders: map<OrderKey, Order>, q: seq<OrderKey>, n: nat)
    requires n < |q|
    ensures orders - {q[0]} - Members(q[1..][..n]) == orders - Members(q[..n + 1])
  {
    assert q[..n + 1] == [q[0]] + q[1..][..n];
    assert Members(q[..n + 1]) == {q[0]} + Members(q[1..][..n]);
  }

  lemma PutAfterPut(m: map<Spot, seq<OrderKey>>, s: Spot, q: seq<OrderKey>, r: seq<OrderKey>)
    ensures PutQueue(PutQueue(m, s, q), s, r) == PutQueue(m, s, r)
  {
  }

  lemma FillWithinFront(b: PlainBook, s: Spot, qty: nat)
    requires WellFormed(b)
    requires qty == 0 || s !in b.queues || (QueueOk(b, s) && qty < b.orders[b.queues[s][0]].size)
    ensures Consume(b, s, qty) == FrontFilled(b, s, 0, qty)
  {
    var q := QueueAt(b, s);
    assert q[..0] == [] && q[0..] == q;
    assert b.orders - Members([]) == b.orders;
    if s in b.queues {
      assert QueueOk(b, s);
      assert PutQueue(b.queues, s, q) == b.queues;
    } else {
      assert PutQueue(b.queues, s, q) == b.queues;
    }
  }

  lemma SizesTail(b: PlainBook, s: Spot, c: PlainBook)
    requires s in b.queues && QueueOk(b, s) && c == Remove(b, b.queues[s][0]) && WellFormed(c)
    requires QueueAt(c, s) == b.queues[s][1..]
    ensures s in c.queues ==> QueueOk(c, s)
    ensures SizesOf(QueueAt(c, s), c.orders) == SizesOf(b.queues[s], b.orders)[1..]
  {
    if s in c.queues { assert QueueOk(c, s); }
    SameSizes(QueueAt(c, s), c.orders, b.orders);
    assert SizesOf(b.queues[s][1..], b.orders) == SizesOf(b.queues[s], b.orders)[1..];
  }

  /** A fill removes a prefix of whole orders plus part of the next, and touches nothing else. */
  lemma {:induction false} ConsumeIsFifo(b: PlainBook, s: Spot, qty: nat, sizes: seq<nat>)
    requires WellFormed(b) && (s in b.queues ==> QueueOk(b, s)) && sizes == SizesOf(QueueAt(b, s), b.orders)
    ensures Consume(b, s, qty) == FrontFilled(b, s, WholeFills(sizes, qty), Residue(sizes, qty))
    decreases |QueueAt(b, s)|
  {
    if qty == 0 || s !in b.queues || qty < sizes[0] {
      FillWithinFront(b, s, qty);
      assert WholeFills(sizes, qty) == 0 && Residue(sizes, qty) == qty;
    } else {
      var rest: nat := qty - sizes[0];
      WholeFillsStep(sizes, qty, rest);
      var n, left := WholeFills(sizes[1..], rest), Residue(sizes[1..], rest);
      var k := ConsumeTurn(b, s, qty);
      var c := Remove(b, k);
      assert b.orders[k].size == sizes[0];
      assert Consume(b, s, qty) == Consume(c, s, rest);
      SizesTail(b, s, c);
      ConsumeIsFifo(c, s, rest, sizes[1..]);
      FrontFilledStep(b, s, n, left);
    }
  }

  // ---------- Runs ----------

  /** A book operation; a per-order snapshot is a `Clear` followed by its adds. */
  datatype Op =
    | AddOp(order: Order)
    | UpdateOp(key: OrderKey, price: Option<int>, size: Option<nat>)
    | DeleteOp(key: OrderKey)
    | PriorityOp(key: OrderKey, priority: nat)
    | TradeOp(tradePrice: int, qty: nat, aggr: Aggressor)
    | Clear

  lemma DeleteKeeps(b: PlainBook, k: OrderKey)
    requires WellFormed(b)
    ensures WellFormed(Delete(b, k)) && k !in Delete(b, k).orders
  {
    if k in b.orders { RemoveKeeps(b, k); }
  }

  lemma AddKeeps(b: PlainBook, o: Order)
    requires WellFormed(b)
    ensures WellFormed(Add(b, o))
  {
    DeleteKeeps(b, o.key);
    AppendKeeps(Delete(b, o.key), o);
  }

  lemma UpdateKeeps(b: PlainBook, k: OrderKey, price: Option<int>, size: Option<nat>)
    requires WellFormed(b)
    ensures WellFormed(Update(b, k, price, size).0)
  {
    if k in b.orders {
      assert OrderOk(b, k);
      var o := b.orders[k];
      var p := if price.Some? then price.value else o.price;
      var z := if size.Some? then size.value else o.size;
      RemoveKeeps(b, k);
      AppendKeeps(Remove(b, k), o.(price := p, size := z));
      ResizeKeeps(b, k, z);
    }
  }

  lemma ReprioritiseKeeps(b: PlainBook, k: OrderKey, priority: nat)
    requires WellFormed(b)
    ensures WellFormed(Reprioritise(b, k, priority).0)
  {
    if k in b.orders {
      assert OrderOk(b, k);
      RemoveKeeps(b, k);
      AppendKeeps(Remove(b, k), b.orders[k].(priority := priority));
    }
  }

  /** Every operation takes a well-formed book to a well-formed book. */
  ghost function Apply(b: PlainBook, op: Op): (r: PlainBook)
    requires WellFormed(b)
    ensures WellFormed(r)
  {
    match op
    case AddOp(o) => AddKeeps(b, o); Add(b, o)
    case UpdateOp(k, p, z) => UpdateKeeps(b, k, p, z); Update(b, k, p, z).0
    case DeleteOp(k) => DeleteKeeps(b, k); Delete(b, k)
    case PriorityOp(k, p) => ReprioritiseKeeps(b, k, p); Reprioritise(b, k, p).0
    case TradeOp(p, q, a) => Trade(b, p, q, a)
    case Clear => EMPTY
  }

  ghost function Run(ops: seq<Op>): (r: PlainBook)
    ensures WellFormed(r)
  {
    if ops == [] then EMPTY else Apply(Run(ops[..|ops| - 1]), ops[|ops| - 1])
  }

  lemma RunStep(ops: seq<Op>, n: nat)
    requires n < |ops|
    ensures Run(ops[..n + 1]) == Apply(Run(ops[..n]), ops[n])
  {
    assert ops[..n + 1][..n] == ops[..n];
  }

  /** A per-order snapshot leaves the book that clearing it and adding each order in turn leaves. */
  lemma {:induction false} SnapshotIsRun(before: seq<Op>, orders: seq<Order>)
    ensures Run(before + SnapshotOps(orders)) == AddAll(EMPTY, orders)
  {
    var ops := before + SnapshotOps(orders);
    if orders == [] {
      assert ops[..|ops| - 1] == before;
    } else {
      var n := |orders| - 1;
      SnapshotIsRun(before, orders[..n]);
      assert ops[..|ops| - 1] == before + SnapshotOps(orders[..n]);
    }
  }

  function SnapshotOps(orders: seq<Order>): (ops: seq<Op>)
    ensures |ops| == |orders| + 1
  {
    if orders == [] then [Clear]
    else SnapshotOps(orders[..|orders| - 1]) + [AddOp(orders[|orders| - 1])]
  }

  // ---------- A queue stands in order of last arrival ----------

  /** Does this operation send `k` to the back of a queue? */
  predicate Requeues(b: PlainBook, op: Op, k: OrderKey) {
    match op
    case AddOp(o) => o.key == k
    case UpdateOp(j, p, z) =>
      j == k && k in b.orders && p.Some? && p.value != b.orders[k].price
      && (if z.Some? then z.value else b.orders[k].size) != 0
    case PriorityOp(j, p) => j == k && k in b.orders && p != b.orders[k].priority
    case _ => false
  }

  /** The position in the run of the last operation that sent `k` to the back; 0 if none did. */
  ghost function LastQueued(ops: seq<Op>, k: OrderKey): (n: nat)
    ensures n <= |ops|
  {
    if ops == [] then 0
    else if Requeues(Run(ops[..|ops| - 1]), ops[|ops| - 1], k) then |ops|
    else LastQueued(ops[..|ops| - 1], k)
  }

  ghost predicate InArrivalOrder(ops: seq<Op>, q: seq<OrderKey>) {
    forall i, j :: 0 <= i < j < |q| ==> LastQueued(ops, q[i]) < LastQueued(ops, q[j])
  }

  lemma RemoveQueue(b: PlainBook, k: OrderKey, s: Spot)
    requires WellFormed(b) && k in b.orders
    ensures QueueAt(Remove(b, k), s) == Without(QueueAt(b, s), k)
  {
    if s in b.queues { assert QueueOk(b, s); }
  }

  lemma ThinnedOrder(ops: seq<Op>, q: seq<OrderKey>, k: OrderKey)
    requires InArrivalOrder(ops, q)
    ensures InArrivalOrder(ops, Without(q, k))
  {
    if k in q {
      var r := Without(q, k);
      forall i, j | 0 <= i < j < |r| ensures LastQueued(ops, r[i]) < LastQueued(ops, r[j]) {
        var c, d := WithoutFrom(q, k, i, j);
        assert LastQueued(ops, q[c]) < LastQueued(ops, q[d]);
      }
    }
  }

  /** Members the operation leaves alone keep their order; the one it moves goes last. */
  lemma ExtendedOrder(ops: seq<Op>, base: seq<OrderKey>, tail: seq<OrderKey>)
    requires ops != [] && InArrivalOrder(ops[..|ops| - 1], base) && |tail| <= 1
    requires forall k :: k in base ==> !Requeues(Run(ops[..|ops| - 1]), ops[|ops| - 1], k)
    requires tail != [] ==> Requeues(Run(ops[..|ops| - 1]), ops[|ops| - 1], tail[0])
    ensures InArrivalOrder(ops, base + tail)
  {
    var r := base + tail;
    forall i, j | 0 <= i < j < |r| ensures LastQueued(ops, r[i]) < LastQueued(ops, r[j]) {
      assert r[i] in base;
      assert LastQueued(ops, r[i]) == LastQueued(ops[..|ops| - 1], r[i]);
      if j < |base| { assert r[j] in base; }
    }
  }

  lemma ConsumeQueue(b: PlainBook, s: Spot, qty: nat, t: Spot) returns (n: nat)
    requires WellFormed(b)
    ensures n <= |QueueAt(b, t)| && QueueAt(Consume(b, s, qty), t) == QueueAt(b, t)[n..]
  {
    if s in b.queues { assert QueueOk(b, s); }
    var sizes := SizesOf(QueueAt(b, s), b.orders);
    ConsumeIsFifo(b, s, qty, sizes);
    n := if t == s then WholeFills(sizes, qty) else 0;
  }

  /** In every run, at every price, orders queue in the order in which they last arrived there. */
  lemma {:induction false} ArrivalOrder(ops: seq<Op>, s: Spot)
    ensures InArrivalOrder(ops, QueueAt(Run(ops), s))
  {
    if ops != [] {
      var pre, op := ops[..|ops| - 1], ops[|ops| - 1];
      var b := Run(pre);
      ArrivalOrder(pre, s);
      match op
      case TradeOp(p, qty, aggr) => ArrivalTrade(ops, s);
      case Clear =>
      case DeleteOp(k) =>
        if k in b.orders {
          RemoveQueue(b, k, s);
          ThinnedOrder(pre, QueueAt(b, s), k);
        }
        ExtendedOrder(ops, QueueAt(Run(ops), s), []);
      case AddOp(o) => ArrivalMoved(ops, b, op, s, o.key, o);
      case PriorityOp(k, p) =>
        if Requeues(b, op, k) {
          assert OrderOk(b, k);
          ArrivalMoved(ops, b, op, s, k, b.orders[k].(priority := p));
        } else {
          ExtendedOrder(ops, QueueAt(b, s), []);
        }
      case UpdateOp(k, p, z) => ArrivalUpdate(ops, s);
    }
  }

  lemma ArrivalTrade(ops: seq<Op>, s: Spot)
    requires ops != [] && ops[|ops| - 1].TradeOp?
    requires InArrivalOrder(ops[..|ops| - 1], QueueAt(Run(ops[..|ops| - 1]), s))
    ensures InArrivalOrder(ops, QueueAt(Run(ops), s))
  {
    var b, op := Run(ops[..|ops| - 1]), ops[|ops| - 1];
    var side := PassiveSide(b, op.tradePrice, op.aggr);
    if side.Some? {
      var n := ConsumeQueue(b, Spot(side.value, op.tradePrice), op.qty, s);
    }
    ExtendedOrder(ops, QueueAt(Run(ops), s), []);
  }

  lemma ArrivalUpdate(ops: seq<Op>, s: Spot)
    requires ops != [] && ops[|ops| - 1].UpdateOp?
    requires InArrivalOrder(ops[..|ops| - 1], QueueAt(Run(ops[..|ops| - 1]), s))
    ensures InArrivalOrder(ops, QueueAt(Run(ops), s))
  {
    var b, op := Run(ops[..|ops| - 1]), ops[|ops| - 1];
    var k := op.key;
    if Requeues(b, op, k) {
      assert OrderOk(b, k);
      var z := if op.size.Some? then op.size.value else b.orders[k].size;
      ArrivalMoved(ops, b, op, s, k, b.orders[k].(price := op.price.value, size := z));
    } else {
      if k in b.orders {
        RemoveQueue(b, k, s);
        ThinnedOrder(ops[..|ops| - 1], QueueAt(b, s), k);
      }
      ExtendedOrder(ops, QueueAt(Run(ops), s), []);
    }
  }

  /** The common shape of add, price change and priority change. */
  lemma ArrivalMoved(ops: seq<Op>, b: PlainBook, op: Op, s: Spot, k: OrderKey, o: Order)
    requires ops != [] && b == Run(ops[..|ops| - 1]) && op == ops[|ops| - 1] && o.key == k
    requires InArrivalOrder(ops[..|ops| - 1], QueueAt(b, s))
    requires forall j :: Requeues(b, op, j) <==> j == k
    requires Run(ops) == Append(Delete(b, k), o)
    ensures InArrivalOrder(ops, QueueAt(Run(ops), s))
  {
    var base := QueueAt(Delete(b, k), s);
    if k in b.orders {
      RemoveQueue(b, k, s);
      ThinnedOrder(ops[..|ops| - 1], QueueAt(b, s), k);
    }
    MovedQueue(b, s, k, o);
    assert Requeues(b, op, k);
    ExtendedOrder(ops, base, if SpotOf(o) == s then [k] else []);
  }

  lemma MovedQueue(b: PlainBook, s: Spot, k: OrderKey, o: Order)
    requires WellFormed(b) && o.key == k
    ensures k !in QueueAt(Delete(b, k), s)
    ensures QueueAt(Append(Delete(b, k), o), s) == QueueAt(Delete(b, k), s) + if SpotOf(o) == s then [k] else []
  {
    DeleteKeeps(b, k);
    if s in Delete(b, k).queues { assert QueueOk(Delete(b, k), s); }
  }
}
