/**
 * A subscriber's mirror of the ladder. Seeded from a full-depth snapshot and
 * fed the published deltas, it stays equal to the book's totals; the one add
 * that breaks it is characterised exactly.
 */
module Mirrors {
  import opened Seqs
  import opened BookTypes
  import opened PlainBooks
  import opened BookRuns
  import opened ManagerSpec

  type Mirror = map<Spot, nat>

  function At(m: Mirror, s: Spot): nat {
    if s in m then m[s] else 0
  }

  ghost predicate Tracks(m: Mirror, b: PlainBook)
    requires WellFormed(b)
  {
    forall s :: At(m, s) == Total(b, s)
  }

  /** Apply one delta's level changes in order. */
  function Absorb(m: Mirror, levels: seq<LevelDelta>): Mirror {
    if levels == [] then m else
    var n := |levels| - 1;
    Absorb(m, levels[..n])[levels[n].spot := levels[n].totalSize]
  }

  function AbsorbDelta(m: Mirror, d: Option<Delta>): Mirror {
    if d.None? then m else Absorb(m, d.value.levels)
  }

  // ---------- The candidates cover every level a call touches ----------

  lemma DeleteCovered(b: PlainBook, k: OrderKey, s: Spot)
    requires WellFormed(b) && WellFormed(Delete(b, k))
    ensures k !in b.orders || SpotOf(b.orders[k]) != s ==> Total(Delete(b, k), s) == Total(b, s)
  {
    if k in b.orders {
      RemoveTotal(b, k, s);
    }
  }

  lemma AddTotal(b: PlainBook, o: Order, s: Spot)
    requires WellFormed(b) && WellFormed(Add(b, o))
    ensures var gone := if o.key in b.orders && SpotOf(b.orders[o.key]) == s then b.orders[o.key].size else 0;
      Total(Add(b, o), s) + gone == Total(b, s) + (if SpotOf(o) == s then o.size else 0)
  {
    DeleteKeeps(b, o.key);
    if o.key in b.orders {
      RemoveTotal(b, o.key, s);
    }
    AppendTotal(Delete(b, o.key), o, s);
  }

  lemma UpdateCovered(b: PlainBook, k: OrderKey, price: Option<int>, size: Option<nat>, s: Spot)
    requires WellFormed(b) && k in b.orders && WellFormed(Update(b, k, price, size).0)
    requires s != SpotOf(b.orders[k])
    requires price.Some? ==> s != Spot(b.orders[k].side, price.value)
    ensures Total(Update(b, k, price, size).0, s) == Total(b, s)
  {
    assert OrderOk(b, k);
    var o := b.orders[k];
    var p := if price.Some? then price.value else o.price;
    var z := if size.Some? then size.value else o.size;
    RemoveKeeps(b, k);
    RemoveTotal(b, k, s);
    if z != 0 {
      if p != o.price {
        var moved := o.(price := p, size := z);
        AppendKeeps(Remove(b, k), moved);
        AppendTotal(Remove(b, k), moved, s);
      } else {
        ResizeTotal(b, k, z, s);
      }
    }
  }

  lemma ReprioritiseCovered(b: PlainBook, k: OrderKey, priority: nat, s: Spot)
    requires WellFormed(b) && WellFormed(Reprioritise(b, k, priority).0)
    ensures Total(Reprioritise(b, k, priority).0, s) == Total(b, s)
  {
    if k in b.orders && b.orders[k].priority != priority {
      assert OrderOk(b, k);
      RemoveKeeps(b, k);
      RemoveTotal(b, k, s);
      AppendTotal(Remove(b, k), b.orders[k].(priority := priority), s);
    }
  }

  lemma TradeCovered(b: PlainBook, price: int, qty: nat, aggr: Aggressor, s: Spot)
    requires WellFormed(b)
    ensures var side := PassiveSide(b, price, aggr);
      Total(Trade(b, price, qty, aggr), s)
        == Total(b, s) - (if side.Some? && s == Spot(side.value, price) then Fill(b, s, qty) else 0)
  {
    var side := PassiveSide(b, price, aggr);
    if side.Some? {
      var at := Spot(side.value, price);
      if s == at { ConsumeTotal(b, at, qty); } else { ConsumeElsewhere(b, at, qty, s); }
    }
  }

  /** Does this add move size off a level the wrapper does not probe? */
  predicate MovesElsewhere(g: Grid, st: Sym, c: Call)
    requires g.tick > 0.0 && c.AddCall?
  {
    var k := NewKey(st, c);
    && k in st.book.orders && st.book.orders[k].size > 0
    && SpotOf(st.book.orders[k]) != Spot(c.side, ToTicks(g, c.px))
  }

  /** Away from the probes nothing moves; and a call that reports no change moves nothing at all. */
  lemma Covered(g: Grid, st: Sym, c: Call, junk: Side, s: Spot)
    requires g.tick > 0.0 && WellFormed(st.book) && Gated(c) && WellFormedCall(g, c)
    requires c.AddCall? ==> !MovesElsewhere(g, st, c)
    ensures var (post, changed) := Mutate(g, st, c);
      s !in Candidates(g, st, c, junk) || !changed ==> Total(post.book, s) == Total(st.book, s)
  {
    var r := Mutate(g, st, c);
    match c
    case AddCall(_, _, _, _, _, _, _) => AddTotal(st.book, NewOrder(g, st, c), s);
    case UpdateCall(k, px, size) =>
      if k in st.book.orders && s !in Candidates(g, st, c, junk) {
        assert Candidates(g, st, c, junk)[0] == SpotOf(st.book.orders[k]);
        if px.Some? { assert Candidates(g, st, c, junk)[1] == Spot(st.book.orders[k].side, ToTicks(g, px.value)); }
        UpdateCovered(st.book, k, TicksOf(g, px), size, s);
      } else if k in st.book.orders && !r.1 {
        ResizeTotal(st.book, k, st.book.orders[k].size, s);
      }
    case DeleteCall(k) => DeleteCovered(st.book, k, s);
    case PriorityCall(k, p) => ReprioritiseCovered(st.book, k, p, s);
    case TradeCall(px, size, aggr) => TradeCovered(st.book, ToTicks(g, px), size, aggr, s);
    case SummaryCall(_, _, _, _) =>
  }

  // ---------- Absorbing a delta ----------

  lemma AbsorbPush(m: Mirror, levels: seq<LevelDelta>, d: LevelDelta)
    ensures Absorb(m, levels + [d]) == Absorb(m, levels)[d.spot := d.totalSize]
  {
    assert (levels + [d])[..|levels|] == levels;
  }

  lemma {:induction false} AbsorbDeltas(m: Mirror, pre: PlainBook, post: PlainBook, probes: seq<Spot>, s: Spot)
    requires WellFormed(pre) && WellFormed(post) && At(m, s) == Total(pre, s)
    ensures At(Absorb(m, LevelDeltas(pre, post, probes)), s) == if s in probes then Total(post, s) else Total(pre, s)
  {
    if probes != [] {
      var n := |probes| - 1;
      var shorter := LevelDeltas(pre, post, probes[..n]);
      AbsorbDeltas(m, pre, post, probes[..n], s);
      InLast(probes, s);
      AbsorbPush(m, shorter, LevelDelta(probes[n], Total(post, probes[n])));
      assert shorter + [] == shorter;
    }
  }

  lemma GatedTracks(g: Grid, st: Sym, c: Call, junk: Side, m: Mirror)
    requires g.tick > 0.0 && WellFormed(st.book) && Tracks(m, st.book)
    requires Gated(c) && !st.feed.stale && WellFormedCall(g, c)
    requires c.AddCall? ==> !MovesElsewhere(g, st, c)
    ensures var r := Step(g, st, c, junk);
      Tracks(AbsorbDelta(m, r.published), r.sym.book)
  {
    var r := Step(g, st, c, junk);
    var m' := AbsorbDelta(m, r.published);
    var (post, changed) := Mutate(g, st, c);
    var probes := Dedup(Candidates(g, st, c, junk));
    forall s ensures At(m', s) == Total(r.sym.book, s) {
      Covered(g, st, c, junk, s);
      AbsorbDeltas(m, st.book, post.book, probes, s);
    }
  }

  lemma MovingAddLoses(g: Grid, st: Sym, c: Call, junk: Side, m: Mirror)
    requires g.tick > 0.0 && WellFormed(st.book) && Tracks(m, st.book)
    requires c.AddCall? && !st.feed.stale && WellFormedCall(g, c) && MovesElsewhere(g, st, c)
    ensures var r := Step(g, st, c, junk);
      !Tracks(AbsorbDelta(m, r.published), r.sym.book)
  {
    var r := Step(g, st, c, junk);
    var s := SpotOf(st.book.orders[NewKey(st, c)]);
    var post := Mutate(g, st, c).0;
    AddTotal(st.book, NewOrder(g, st, c), s);
    AbsorbDeltas(m, st.book, post.book, Dedup(Candidates(g, st, c, junk)), s);
    assert At(AbsorbDelta(m, r.published), s) != Total(r.sym.book, s);
  }

  ghost predicate SameTotals(a: PlainBook, b: PlainBook)
    requires WellFormed(a) && WellFormed(b)
  {
    forall s :: Total(a, s) == Total(b, s)
  }

  /**
   * Does this call leave a mirror wrong? An accepted add that takes size off a
   * level it does not probe, or a per-order snapshot, which publishes no
   * levels, whose totals are not those the book already has.
   */
  ghost predicate LosesMirror(g: Grid, st: Sym, c: Call)
    requires g.tick > 0.0 && WellFormed(st.book)
  {
    match c
    case AddCall(_, _, _, _, _, _, _) => !st.feed.stale && WellFormedCall(g, c) && MovesElsewhere(g, st, c)
    case OrdersSnapshot(orders, _) => AddAllKeeps(orders); !SameTotals(st.book, AddAll(EMPTY, orders))
    case _ => false
  }

  /** One call, one delta: the mirror still tracks exactly when the call is not one of those two. */
  lemma MirrorStepIff(g: Grid, st: Sym, c: Call, junk: Side, m: Mirror)
    requires g.tick > 0.0 && WellFormed(st.book) && Tracks(m, st.book)
    ensures var r := Step(g, st, c, junk);
      Tracks(AbsorbDelta(m, r.published), r.sym.book) <==> !LosesMirror(g, st, c)
  {
    var r := Step(g, st, c, junk);
    if LosesMirror(g, st, c) && c.AddCall? {
      MovingAddLoses(g, st, c, junk, m);
    } else if Gated(c) && !st.feed.stale && WellFormedCall(g, c) {
      GatedTracks(g, st, c, junk, m);
    } else {
      assert AbsorbDelta(m, r.published) == m;
      if c.OrdersSnapshot? { ReloadTracksIff(m, st.book, r.sym.book); }
    }
  }

  lemma ReloadTracksIff(m: Mirror, a: PlainBook, b: PlainBook)
    requires WellFormed(a) && WellFormed(b) && Tracks(m, a)
    ensures Tracks(m, b) <==> SameTotals(a, b)
  {
    assert forall s :: At(m, s) == Total(a, s);
    if Tracks(m, b) {
      forall s ensures Total(a, s) == Total(b, s) {
        assert At(m, s) == Total(b, s);
      }
    }
  }

  // ---------- The best price a mirror shows ----------

  ghost predicate AllPositive(b: PlainBook) {
    forall k :: k in b.orders ==> b.orders[k].size > 0
  }

  function Shown(m: Mirror, side: Side): set<int> {
    set s | s in m && m[s] > 0 && s.side == side :: s.price
  }

  ghost function MirrorTob(m: Mirror, side: Side): Option<(int, nat)> {
    var ps := Shown(m, side);
    if ps == {} then None else Some((Best(side, ps), At(m, Spot(side, Best(side, ps)))))
  }

  lemma LevelIsPositive(b: PlainBook, s: Spot)
    requires WellFormed(b) && AllPositive(b)
    ensures Total(b, s) > 0 <==> s in b.queues
  {
    if s in b.queues {
      assert QueueOk(b, s);
      assert SizesOf(b.queues[s], b.orders)[0] > 0;
    }
  }

  /** A tracking mirror shows the book's own top of book exactly when the best level is not one of size 0. */
  lemma MirrorShowsTobIff(m: Mirror, b: PlainBook, side: Side)
    requires WellFormed(b) && Tracks(m, b)
    ensures MirrorTob(m, side) == Tob(b, side) <==> Tob(b, side).None? || Tob(b, side).value.1 > 0
  {
    forall p | p in Shown(m, side) ensures p in Prices(b.queues.Keys, side) {
      assert At(m, Spot(side, p)) == Total(b, Spot(side, p));
      assert Spot(side, p) in b.queues;
    }
    var best := BestPrice(b, side);
    if best.Some? && Total(b, Spot(side, best.value)) > 0 {
      assert At(m, Spot(side, best.value)) == Total(b, Spot(side, best.value));
      assert IsBest(side, Shown(m, side), best.value);
    }
  }

  // ---------- Seeding from a depth snapshot ----------

  /** The mirror a subscriber builds from the two ladders of a snapshot. */
  function Seed(m: Mirror, side: Side, levels: seq<(int, nat)>): Mirror {
    if levels == [] then m else
    var n := |levels| - 1;
    Seed(m, side, levels[..n])[Spot(side, levels[n].0) := levels[n].1]
  }

  ghost function Seeded(b: PlainBook, depth: nat): Mirror
    requires WellFormed(b)
  {
    Seed(Seed(map[], Bid, TopLevels(b, Bid, depth)), Ask, TopLevels(b, Ask, depth))
  }

  lemma {:induction false} SeedAt(m: Mirror, b: PlainBook, side: Side, levels: seq<(int, nat)>, s: Spot)
    requires At(m, s) == 0 || s.side != side
    requires WellFormed(b) && forall l :: l in levels ==> l.1 == Total(b, Spot(side, l.0))
    ensures At(Seed(m, side, levels), s)
         == if s.side == side && (s.price, Total(b, s)) in levels then Total(b, s) else At(m, s)
  {
    if levels != [] {
      var n := |levels| - 1;
      InLast(levels, (s.price, Total(b, s)));
      SeedAt(m, b, side, levels[..n], s);
      assert levels[n] in levels;
    }
  }

  lemma TopLevelsHas(b: PlainBook, side: Side, depth: nat, p: int)
    requires WellFormed(b)
    ensures forall l :: l in TopLevels(b, side, depth) ==> l.1 == Total(b, Spot(side, l.0))
    ensures (p, Total(b, Spot(side, p))) in TopLevels(b, side, depth) ==> Spot(side, p) in b.queues
    ensures depth >= |Prices(b.queues.Keys, side)| && Spot(side, p) in b.queues
      ==> (p, Total(b, Spot(side, p))) in TopLevels(b, side, depth)
  {
    var prices := Prices(b.queues.Keys, side);
    var l, top := Ladder(side, prices), TopLevels(b, side, depth);
    LadderSorted(side, prices);
    if depth >= |prices| && Spot(side, p) in b.queues {
      assert p in prices;
      assert top[IndexOf(l, p)] == (p, Total(b, Spot(side, p)));
    }
    if i :| 0 <= i < |top| && top[i] == (p, Total(b, Spot(side, p))) {
      assert l[i] in l;
    }
  }

  lemma SeededAt(b: PlainBook, depth: nat, s: Spot)
    requires WellFormed(b)
    ensures At(Seeded(b, depth), s)
         == if (s.price, Total(b, s)) in TopLevels(b, s.side, depth) then Total(b, s) else 0
  {
    var bids, asks := TopLevels(b, Bid, depth), TopLevels(b, Ask, depth);
    TopLevelsHas(b, Bid, depth, s.price);
    TopLevelsHas(b, Ask, depth, s.price);
    SeedAt(map[], b, Bid, bids, s);
    SeedAt(Seed(map[], Bid, bids), b, Ask, asks, s);
  }

  predicate DeepEnough(b: PlainBook, depth: nat) {
    depth >= |Prices(b.queues.Keys, Bid)| && depth >= |Prices(b.queues.Keys, Ask)|
  }

  /** A snapshot deep enough for both sides seeds an exact mirror. */
  lemma FullDepthSeeds(b: PlainBook, depth: nat)
    requires WellFormed(b) && DeepEnough(b, depth)
    ensures Tracks(Seeded(b, depth), b)
  {
    forall s ensures At(Seeded(b, depth), s) == Total(b, s) {
      SeededAt(b, depth, s);
      TopLevelsHas(b, s.side, depth, s.price);
      assert s == Spot(s.side, s.price);
    }
  }

  /** A shallower one never does, as long as every level holds size. */
  lemma ShallowSeedMisses(b: PlainBook, depth: nat, side: Side) returns (s: Spot)
    requires WellFormed(b) && AllPositive(b) && depth < |Prices(b.queues.Keys, side)|
    ensures At(Seeded(b, depth), s) == 0 < Total(b, s)
  {
    var prices := Prices(b.queues.Keys, side);
    var l, top := Ladder(side, prices), TopLevels(b, side, depth);
    LadderSorted(side, prices);
    s := Spot(side, l[depth]);
    assert l[depth] in l;
    LevelIsPositive(b, s);
    SeededAt(b, depth, s);
    assert forall i :: 0 <= i < |top| ==> Better(side, l[i], l[depth]);
  }

  // ---------- Whole sessions ----------

  /** A subscriber following a manager: the symbol, the mirror, and every delta received. */
  datatype Session = Session(sym: Sym, mirror: Mirror, deltas: seq<Delta>)

  /** As deep as the deeper side. */
  function FullDepth(b: PlainBook): (n: nat)
    ensures DeepEnough(b, n)
  {
    var bids, asks := |Prices(b.queues.Keys, Bid)|, |Prices(b.queues.Keys, Ask)|;
    if bids >= asks then bids else asks
  }

  /** The subscriber absorbs each delta, and after a per-order snapshot seeds its mirror afresh at full depth. */
  ghost function NextMirror(m: Mirror, c: Call, r: Outcome): Mirror
    requires WellFormed(r.sym.book)
  {
    if c.OrdersSnapshot? then Seeded(r.sym.book, FullDepth(r.sym.book)) else AbsorbDelta(m, r.published)
  }

  ghost function Follow(g: Grid, st: Sym, m: Mirror, calls: seq<(Call, Side)>): (f: Session)
    requires g.tick > 0.0 && WellFormed(st.book)
    ensures WellFormed(f.sym.book)
  {
    if calls == [] then Session(st, m, []) else
    var n := |calls| - 1;
    var f := Follow(g, st, m, calls[..n]);
    var r := Step(g, f.sym, calls[n].0, calls[n].1);
    Session(r.sym, NextMirror(f.mirror, calls[n].0, r),
            f.deltas + (if r.published.Some? then [r.published.value] else []))
  }

  /** In every session, of any calls whatever, the delta numbers have no gaps. */
  lemma {:induction false} DeltasNumbered(g: Grid, st: Sym, m: Mirror, calls: seq<(Call, Side)>)
    requires g.tick > 0.0 && WellFormed(st.book)
    ensures var f := Follow(g, st, m, calls);
      && f.sym.pubSeq == st.pubSeq + |f.deltas|
      && (forall i :: 0 <= i < |f.deltas| ==> f.deltas[i].seqNo == st.pubSeq + 1 + i)
  {
    if calls != [] {
      DeltasNumbered(g, st, m, calls[..|calls| - 1]);
    }
  }

  ghost predicate TracksAt(g: Grid, st: Sym, m: Mirror, calls: seq<(Call, Side)>, n: nat)
    requires g.tick > 0.0 && WellFormed(st.book) && n <= |calls|
  {
    var f := Follow(g, st, m, calls[..n]);
    Tracks(f.mirror, f.sym.book)
  }

  /** Call `n` is not an accepted add that moves a live key's size off another level. */
  ghost predicate KeptAt(g: Grid, st: Sym, m: Mirror, calls: seq<(Call, Side)>, n: nat)
    requires g.tick > 0.0 && WellFormed(st.book) && n < |calls|
  {
    calls[n].0.AddCall? ==> !LosesMirror(g, Follow(g, st, m, calls[..n]).sym, calls[n].0)
  }

  lemma FollowNext(g: Grid, st: Sym, m: Mirror, calls: seq<(Call, Side)>, n: nat, k: nat)
    requires g.tick > 0.0 && WellFormed(st.book) && n < |calls| && k == n + 1
    ensures var f, next := Follow(g, st, m, calls[..n]), Follow(g, st, m, calls[..k]);
      var r := Step(g, f.sym, calls[n].0, calls[n].1);
      next.sym == r.sym && next.mirror == NextMirror(f.mirror, calls[n].0, r)
  {
    assert calls[..k][..n] == calls[..n];
  }

  lemma NextTracks(g: Grid, st: Sym, m: Mirror, calls: seq<(Call, Side)>, n: nat, k: nat)
    requires g.tick > 0.0 && WellFormed(st.book) && n < |calls| && k == n + 1
    requires TracksAt(g, st, m, calls, n)
    ensures TracksAt(g, st, m, calls, k) <==> KeptAt(g, st, m, calls, n)
  {
    FollowNext(g, st, m, calls, n, k);
    var f := Follow(g, st, m, calls[..n]);
    var r := Step(g, f.sym, calls[n].0, calls[n].1);
    MirrorStepIff(g, f.sym, calls[n].0, calls[n].1, f.mirror);
    FullDepthSeeds(r.sym.book, FullDepth(r.sym.book));
  }

  lemma {:induction false} KeptTracks(g: Grid, st: Sym, m: Mirror, calls: seq<(Call, Side)>, n: nat)
    requires g.tick > 0.0 && WellFormed(st.book) && Tracks(m, st.book) && n <= |calls|
    requires forall i :: 0 <= i < |calls| ==> KeptAt(g, st, m, calls, i)
    ensures TracksAt(g, st, m, calls, n)
  {
    if n == 0 {
      assert calls[..0] == [];
    } else {
      KeptTracks(g, st, m, calls, n - 1);
      NextTracks(g, st, m, calls, n - 1, n);
    }
  }

  /**
   * In every session the mirror equals the ladder, at every level after every
   * call, exactly when no accepted add moved a live key's size off another level.
   */
  lemma MirrorFollowsIff(g: Grid, st: Sym, m: Mirror, calls: seq<(Call, Side)>)
    requires g.tick > 0.0 && WellFormed(st.book) && Tracks(m, st.book)
    ensures (forall n :: 0 <= n <= |calls| ==> TracksAt(g, st, m, calls, n))
       <==> (forall n :: 0 <= n < |calls| ==> KeptAt(g, st, m, calls, n))
  {
    if forall n :: 0 <= n <= |calls| ==> TracksAt(g, st, m, calls, n) {
      forall n | 0 <= n < |calls| ensures KeptAt(g, st, m, calls, n) {
        assert TracksAt(g, st, m, calls, n + 1);
        NextTracks(g, st, m, calls, n, n + 1);
      }
    } else if forall n :: 0 <= n < |calls| ==> KeptAt(g, st, m, calls, n) {
      forall n | 0 <= n <= |calls| ensures TracksAt(g, st, m, calls, n) {
        KeptTracks(g, st, m, calls, n);
      }
    }
  }

  // ---------- A published best is the mirror's best ----------

  lemma {:induction false} ConsumePositive(b: PlainBook, s: Spot, qty: nat)
    requires WellFormed(b) && AllPositive(b)
    ensures AllPositive(Consume(b, s, qty))
    decreases |QueueAt(b, s)|
  {
    if qty != 0 && s in b.queues {
      var k := ConsumeTurn(b, s, qty);
      if b.orders[k].size <= qty {
        var rest: nat := qty - b.orders[k].size;
        ConsumePositive(Remove(b, k), s, rest);
      }
    }
  }

  lemma MutatePositive(g: Grid, st: Sym, c: Call)
    requires g.tick > 0.0 && WellFormed(st.book) && AllPositive(st.book) && Gated(c)
    ensures WellFormedCall(g, c) ==> AllPositive(Mutate(g, st, c).0.book)
  {
    if c.TradeCall? {
      var p := ToTicks(g, c.px);
      var side := PassiveSide(st.book, p, c.aggr);
      if side.Some? { ConsumePositive(st.book, Spot(side.value, p), c.size); }
    }
  }

  predicate PositiveSnapshot(c: Call) {
    c.OrdersSnapshot? ==> forall i :: 0 <= i < |c.orders| ==> c.orders[i].size > 0
  }

  lemma {:induction false} AddAllPositive(orders: seq<Order>)
    requires forall i :: 0 <= i < |orders| ==> orders[i].size > 0
    ensures AllPositive(AddAll(EMPTY, orders))
  {
    if orders != [] { AddAllPositive(orders[..|orders| - 1]); }
  }

  lemma StepPositive(g: Grid, st: Sym, c: Call, junk: Side)
    requires g.tick > 0.0 && WellFormed(st.book) && AllPositive(st.book) && PositiveSnapshot(c)
    ensures AllPositive(Step(g, st, c, junk).sym.book)
  {
    if Gated(c) {
      MutatePositive(g, st, c);
    } else if c.OrdersSnapshot? {
      AddAllPositive(c.orders);
    }
  }

  /** Sizes stay positive in every session whose snapshots list positive orders. */
  lemma {:induction false} SessionPositive(g: Grid, st: Sym, m: Mirror, calls: seq<(Call, Side)>)
    requires g.tick > 0.0 && WellFormed(st.book) && AllPositive(st.book)
    requires forall i :: 0 <= i < |calls| ==> PositiveSnapshot(calls[i].0)
    ensures AllPositive(Follow(g, st, m, calls).sym.book)
  {
    if calls != [] {
      var n := |calls| - 1;
      SessionPositive(g, st, m, calls[..n]);
      StepPositive(g, Follow(g, st, m, calls[..n]).sym, calls[n].0, calls[n].1);
    }
  }

  /** A best a delta carries is the mirror's, unless it is a level of size 0, which no mirror shows. */
  ghost predicate BestIsMirrors(best: Option<(int, nat)>, m: Mirror, side: Side) {
    best.Some? ==> (best == MirrorTob(m, side) <==> best.value.1 > 0)
  }

  /** Call `n` of a session publishes only bests that the mirror shows once it has taken the call in. */
  ghost predicate BestsAt(g: Grid, st: Sym, m: Mirror, calls: seq<(Call, Side)>, n: nat)
    requires g.tick > 0.0 && WellFormed(st.book) && n < |calls|
  {
    var d := Step(g, Follow(g, st, m, calls[..n]).sym, calls[n].0, calls[n].1).published;
    var mirror := Follow(g, st, m, calls[..n + 1]).mirror;
    d.Some? ==> BestIsMirrors(d.value.bid, mirror, Bid) && BestIsMirrors(d.value.ask, mirror, Ask)
  }

  /** In every session that keeps its mirror, every published best bid or ask is the mirror's at that moment. */
  lemma PublishedBestsAreMirrors(g: Grid, st: Sym, m: Mirror, calls: seq<(Call, Side)>, n: nat)
    requires g.tick > 0.0 && WellFormed(st.book) && Tracks(m, st.book) && n < |calls|
    requires forall i :: 0 <= i < |calls| ==> KeptAt(g, st, m, calls, i)
    ensures BestsAt(g, st, m, calls, n)
  {
    KeptTracks(g, st, m, calls, n + 1);
    assert calls[..n + 1][..n] == calls[..n];
    var f := Follow(g, st, m, calls[..n + 1]);
    MirrorShowsTobIff(f.mirror, f.sym.book, Bid);
    MirrorShowsTobIff(f.mirror, f.sym.book, Ask);
  }

  /** With positive sizes a best never has size 0. */
  lemma BestIsPositive(b: PlainBook, side: Side)
    requires WellFormed(b) && AllPositive(b)
    ensures Tob(b, side).Some? ==> Tob(b, side).value.1 > 0
  {
    var p := BestPrice(b, side);
    if p.Some? {
      assert Spot(side, p.value) in b.queues;
      LevelIsPositive(b, Spot(side, p.value));
    }
  }

  /** Re-adding order 1 at another price: its old level keeps a size in the mirror that the book no longer has. */
  lemma ReAddExample(m: Mirror)
    requires var b := Add(EMPTY, Order(OrderKey(1, Scope(0, 0), false), Bid, 10, 5, 0));
      WellFormed(b) && Tracks(m, b)
    ensures var g := Grid(1.0, false);
      var st := NEW_SYM.(book := Add(EMPTY, Order(OrderKey(1, Scope(0, 0), false), Bid, 10, 5, 0)));
      var r := Step(g, st, AddCall(1, Bid, 11.0, 5, 0, Scope(0, 0), false), Bid);
      !Tracks(AbsorbDelta(m, r.published), r.sym.book)
  {
    var g := Grid(1.0, false);
    var st := NEW_SYM.(book := Add(EMPTY, Order(OrderKey(1, Scope(0, 0), false), Bid, 10, 5, 0)));
    var c := AddCall(1, Bid, 11.0, 5, 0, Scope(0, 0), false);
    TicksRoundTrip(g, 11);
    assert ToPrice(g, 11) == 11.0;
    assert MovesElsewhere(g, st, c);
    MirrorStepIff(g, st, c, Bid, m);
  }

  // ---------- Adds without an id ----------

  /** Synthetic ids in the book are below their scope's counter. */
  ghost predicate SyntheticBelow(st: Sym) {
    forall k :: k in st.book.orders ==> HandedOut(st, k)
  }

  /** Then an add without an id takes a key that is not live, so it never moves another order. */
  lemma MissingIdIsFresh(g: Grid, st: Sym, c: Call)
    requires g.tick > 0.0 && SyntheticBelow(st) && c.AddCall? && (c.idMissing || c.id == 0)
    ensures NewKey(st, c) !in st.book.orders && !MovesElsewhere(g, st, c)
  {
  }

  lemma MutateKeepsSynthetic(g: Grid, st: Sym, c: Call, k: OrderKey)
    requires g.tick > 0.0 && WellFormed(st.book) && SyntheticBelow(st) && Gated(c)
    ensures var post := Mutate(g, st, c).0;
      k in post.book.orders ==> HandedOut(post, k)
  {
    if c.TradeCall? {
      var p := ToTicks(g, c.px);
      var side := PassiveSide(st.book, p, c.aggr);
      if side.Some? { ConsumeOnlyRemoves(st.book, Spot(side.value, p), c.size, k); }
    } else if (c.UpdateCall? || c.PriorityCall?) && c.key in st.book.orders {
      assert OrderOk(st.book, c.key);
    }
  }

  lemma {:induction false} AddAllKeys(orders: seq<Order>, k: OrderKey)
    ensures k in AddAll(EMPTY, orders).orders <==> exists i :: 0 <= i < |orders| && orders[i].key == k
  {
    if orders != [] {
      var n := |orders| - 1;
      AddAllKeys(orders[..n], k);
      if orders[n].key != k {
        assert forall i :: 0 <= i < n ==> orders[..n][i] == orders[i];
      }
    }
  }

  predicate HandedOut(st: Sym, k: OrderKey) {
    k.synthetic ==> k.id < NextId(st.counters, k.scope)
  }

  /** A per-order snapshot lists no synthetic id its scope has not handed out. */
  predicate ListsHandedOut(st: Sym, c: Call) {
    c.OrdersSnapshot? ==> forall i :: 0 <= i < |c.orders| ==> HandedOut(st, c.orders[i].key)
  }

  /** Every call keeps it, a per-order snapshot exactly when it lists no other synthetic ids. */
  lemma SyntheticKeptIff(g: Grid, st: Sym, c: Call, junk: Side)
    requires g.tick > 0.0 && WellFormed(st.book) && SyntheticBelow(st)
    ensures SyntheticBelow(Step(g, st, c, junk).sym) <==> ListsHandedOut(st, c)
  {
    var r := Step(g, st, c, junk).sym;
    if Gated(c) {
      forall k { MutateKeepsSynthetic(g, st, c, k); }
    } else if c.OrdersSnapshot? {
      forall k { AddAllKeys(c.orders, k); }
      forall i | 0 <= i < |c.orders| ensures c.orders[i].key in r.book.orders {
        AddAllKeys(c.orders, c.orders[i].key);
      }
    }
  }

  // ---------- Level summaries are silent ----------

  /** A level summary changes only the separate level-only ladder, so nothing is ever published for it. */
  lemma SummaryPublishesNothing(g: Grid, st: Sym, c: Call, junk: Side)
    requires g.tick > 0.0 && WellFormed(st.book) && c.SummaryCall?
    ensures Step(g, st, c, junk).published == None && Step(g, st, c, junk).sym.book == st.book
  {
    if !st.feed.stale && WellFormedCall(g, c) {
      var post := Mutate(g, st, c).0;
      NoDeltas(st.book, post.book, Dedup(Candidates(g, st, c, junk)));
    }
  }

  lemma {:induction false} NoDeltas(pre: PlainBook, post: PlainBook, probes: seq<Spot>)
    requires WellFormed(pre) && WellFormed(post) && pre == post
    ensures LevelDeltas(pre, post, probes) == []
  {
    if probes != [] { NoDeltas(pre, post, probes[..|probes| - 1]); }
  }

  /** The level-only ladder never holds a level of size 0. */
  lemma {:induction false} AggregatedStaysPositive(entries: seq<(Spot, LevelAgg)>, agg: map<Spot, LevelAgg>,
                                                   s: Spot, total: nat, count: Option<nat>)
    ensures forall x :: x in AggSnapshot(entries) ==> AggSnapshot(entries)[x].totalSize > 0
    ensures (forall x :: x in agg ==> agg[x].totalSize > 0)
      ==> forall x :: x in AggSummary(agg, s, total, count).0 ==> AggSummary(agg, s, total, count).0[x].totalSize > 0
  {
    if entries != [] { AggregatedStaysPositive(entries[..|entries| - 1], agg, s, total, count); }
  }
}
