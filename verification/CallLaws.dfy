/**
 * What a manager call does to its symbol and what its subscribers are sent,
 * said of the book before and after: which calls take effect and how, which
 * levels and bests a delta carries, and how far the last best sent can be
 * trusted.
 */
module CallLaws {
  import opened Seqs
  import opened BookTypes
  import opened PlainBooks
  import opened BookRuns
  import opened BookLaws
  import opened ManagerSpec
  import Mirrors
  import Staleness
  import Itch

  // ---------- Which calls are acceptable ----------

  /** `px` lies within 1e-8 ticks of tick `k`. */
  predicate NearTick(g: Grid, px: real, k: int)
    requires g.tick > 0.0
  {
    -0.00000001 < px / g.tick - k as real < 0.00000001
  }

  /** A price is valid exactly when it is not 0, has an allowed sign and lies near some tick. */
  lemma ValidPriceIff(g: Grid, px: real)
    requires g.tick > 0.0
    ensures ValidPrice(g, px) <==> px != 0.0 && (g.negativeOk || px > 0.0) && exists k :: NearTick(g, px, k)
  {
    if ValidPrice(g, px) {
      assert NearTick(g, px, Round(px / g.tick));
    }
    forall k | NearTick(g, px, k) ensures k == Round(px / g.tick) {
    }
  }

  predicate Acceptable(g: Grid, c: Call)
    requires g.tick > 0.0
  {
    match c
    case AddCall(_, _, px, size, _, _, _) => size != 0 && ValidPrice(g, px)
    case UpdateCall(_, px, size) =>
      && !(px.None? && size.None?) && size != Some(0)
      && !(px.Some? && !ValidPrice(g, px.value))
    case TradeCall(px, size, _) => size != 0 && ValidPrice(g, px)
    case SummaryCall(_, px, _, _) => ValidPrice(g, px)
    case _ => true
  }

  // ---------- What an accepted call does ----------

  function TicksIfGiven(g: Grid, px: Option<real>): Option<int>
    requires g.tick > 0.0
  {
    match px case None => None case Some(x) => Some(ToTicks(g, x))
  }

  /** The key an add is stored under: the caller's id, or the next synthetic one of its scope. */
  predicate StoredUnder(st: Sym, c: Call, k: OrderKey)
    requires c.AddCall?
  {
    && k.scope == c.scope && k.synthetic == (c.idMissing || c.id == 0)
    && k.id == if k.synthetic then (if c.scope in st.counters then st.counters[c.scope] else 1) else c.id
  }

  ghost predicate TakesEffect(g: Grid, st: Sym, c: Call, r: Outcome)
    requires g.tick > 0.0 && WellFormed(st.book) && WellFormed(r.sym.book) && Gated(c)
  {
    match c
    case AddCall(_, side, px, size, priority, _, _) =>
      r.ok && exists k ::
        (StoredUnder(st, c, k) && Arrives(st.book, r.sym.book, Order(k, side, ToTicks(g, px), size, priority)))
    case UpdateCall(k, px, size) => Updates(st.book, r.sym.book, k, TicksIfGiven(g, px), size, r.ok)
    case DeleteCall(k) => Deletes(st.book, r.sym.book, k, r.ok)
    case PriorityCall(k, priority) => Prioritises(st.book, r.sym.book, k, priority, r.ok)
    case TradeCall(px, size, aggr) =>
      && Trades(st.book, r.sym.book, ToTicks(g, px), size, aggr)
      && r.ok == Finds(st.book, ToTicks(g, px), size, aggr)
    case SummaryCall(side, px, total, count) =>
      var s := Spot(side, ToTicks(g, px));
      && r.sym.book == st.book && r.sym.agg - {s} == st.agg - {s}
      && (s in r.sym.agg <==> total > 0) && (s in r.sym.agg ==> r.sym.agg[s].totalSize == total)
  }

  lemma MutateTakesEffect(g: Grid, st: Sym, c: Call, r: Outcome)
    requires g.tick > 0.0 && WellFormed(st.book) && Gated(c)
    requires r.sym.book == Mutate(g, st, c).0.book && r.sym.agg == Mutate(g, st, c).0.agg && r.ok == Mutate(g, st, c).1
    ensures TakesEffect(g, st, c, r)
  {
    match c
    case AddCall(_, side, px, size, priority, _, _) =>
      var o := NewOrder(g, st, c);
      AddMeans(st.book, o);
      assert StoredUnder(st, c, o.key) && o == Order(o.key, side, ToTicks(g, px), size, priority);
    case UpdateCall(k, px, size) =>
      assert TicksIfGiven(g, px) == TicksOf(g, px);
      UpdateMeans(st.book, k, TicksOf(g, px), size);
    case DeleteCall(k) => DeleteMeans(st.book, k);
    case PriorityCall(k, priority) => PriorityMeans(st.book, k, priority);
    case TradeCall(px, size, aggr) => TradeMeans(st.book, ToTicks(g, px), size, aggr);
    case SummaryCall(_, _, _, _) =>
  }

  /** An accepted call runs the mutator. */
  lemma StepMutates(g: Grid, st: Sym, c: Call, junk: Side)
    requires g.tick > 0.0 && WellFormed(st.book) && Gated(c) && !st.feed.stale && WellFormedCall(g, c)
    ensures var r := Step(g, st, c, junk);
      r.sym.book == Mutate(g, st, c).0.book && r.sym.agg == Mutate(g, st, c).0.agg && r.ok == Mutate(g, st, c).1
  {
  }

  lemma AcceptableIs(g: Grid, c: Call)
    requires g.tick > 0.0
    ensures Acceptable(g, c) <==> WellFormedCall(g, c)
  {
  }

  /** A gated call takes effect exactly when the symbol is not stale and the call acceptable; else nothing changes. */
  lemma CallTakesEffect(g: Grid, st: Sym, c: Call, junk: Side)
    requires g.tick > 0.0 && WellFormed(st.book) && Gated(c)
    ensures var r := Step(g, st, c, junk);
      if st.feed.stale || !Acceptable(g, c) then r.sym == st && !r.ok && r.published.None?
      else TakesEffect(g, st, c, r)
  {
    AcceptableIs(g, c);
    if !st.feed.stale && Acceptable(g, c) {
      StepMutates(g, st, c, junk);
      MutateTakesEffect(g, st, c, Step(g, st, c, junk));
    }
  }

  // ---------- What a delta carries ----------

  function BestOf(d: Option<Delta>, side: Side): Option<(int, nat)> {
    if d.None? then None else if side == Bid then d.value.bid else d.value.ask
  }

  function LevelsOf(d: Option<Delta>): seq<LevelDelta> {
    if d.None? then [] else d.value.levels
  }

  /** A delta carries a side's best exactly when there is one and it is not what it was, and then as it is. */
  ghost predicate SendsBest(pre: PlainBook, post: PlainBook, d: Option<Delta>, side: Side)
    requires WellFormed(pre) && WellFormed(post)
  {
    && (BestOf(d, side).Some? <==> Tob(post, side).Some? && Tob(post, side) != Tob(pre, side))
    && (BestOf(d, side).Some? ==> BestOf(d, side) == Tob(post, side))
  }

  /** The spot an add is probed at; any other call may report any level. */
  predicate Reportable(g: Grid, c: Call, s: Spot)
    requires g.tick > 0.0
  {
    c.AddCall? ==> s == Spot(c.side, ToTicks(g, c.px))
  }

  /** A delta lists exactly the reportable levels whose totals moved, each once, with the total now. */
  ghost predicate SendsLevels(g: Grid, c: Call, pre: PlainBook, post: PlainBook, levels: seq<LevelDelta>)
    requires g.tick > 0.0 && WellFormed(pre) && WellFormed(post)
  {
    && (forall i :: 0 <= i < |levels| ==> Reported(pre, post, levels[i]) && Reportable(g, c, levels[i].spot))
    && (forall s :: Reportable(g, c, s) && Total(post, s) != Total(pre, s) ==> Lists(levels, s))
    && (forall i, j :: 0 <= i < j < |levels| ==> levels[i].spot != levels[j].spot)
  }

  ghost predicate Reported(pre: PlainBook, post: PlainBook, l: LevelDelta)
    requires WellFormed(pre) && WellFormed(post)
  {
    Total(post, l.spot) != Total(pre, l.spot) && l.totalSize == Total(post, l.spot)
  }

  predicate Lists(levels: seq<LevelDelta>, s: Spot) {
    exists i :: 0 <= i < |levels| && levels[i].spot == s
  }

  ghost predicate Reports(pre: PlainBook, post: PlainBook, probes: seq<Spot>, l: seq<LevelDelta>)
    requires WellFormed(pre) && WellFormed(post)
  {
    && (forall i :: 0 <= i < |l| ==> Reported(pre, post, l[i]) && l[i].spot in probes)
    && (forall s :: s in probes && Total(post, s) != Total(pre, s) ==> Lists(l, s))
    && (forall i, j :: 0 <= i < j < |l| ==> l[i].spot != l[j].spot)
  }

  lemma ReportsMore(pre: PlainBook, post: PlainBook, probes: seq<Spot>, l: seq<LevelDelta>, s: Spot)
    requires WellFormed(pre) && WellFormed(post) && Reports(pre, post, probes, l) && s !in probes
    ensures var more := if Total(post, s) != Total(pre, s) then [LevelDelta(s, Total(post, s))] else [];
      Reports(pre, post, probes + [s], l + more)
  {
    if Total(post, s) == Total(pre, s) {
      assert l + [] == l;
      forall x | x in probes + [s] && Total(post, x) != Total(pre, x) ensures Lists(l, x) {
        assert x in probes;
      }
    } else {
      var all := l + [LevelDelta(s, Total(post, s))];
      forall x | x in probes + [s] && Total(post, x) != Total(pre, x) ensures Lists(all, x) {
        if x == s { assert all[|l|].spot == x; } else { ListsMore(l, all[|l|], x); }
      }
    }
  }

  lemma ListsMore(l: seq<LevelDelta>, d: LevelDelta, x: Spot)
    requires Lists(l, x)
    ensures Lists(l + [d], x)
  {
    var i :| 0 <= i < |l| && l[i].spot == x;
    assert (l + [d])[i].spot == x;
  }

  lemma {:induction false} DeltasReport(pre: PlainBook, post: PlainBook, probes: seq<Spot>)
    requires WellFormed(pre) && WellFormed(post) && Distinct(probes)
    ensures Reports(pre, post, probes, LevelDeltas(pre, post, probes))
  {
    if probes != [] {
      var n := |probes| - 1;
      DeltasReport(pre, post, probes[..n]);
      ReportsMore(pre, post, probes[..n], LevelDeltas(pre, post, probes[..n]), probes[n]);
      assert probes[..n] + [probes[n]] == probes;
    }
  }

  lemma AddMovesOnly(g: Grid, st: Sym, c: Call, junk: Side, s: Spot)
    requires g.tick > 0.0 && WellFormed(st.book) && Gated(c) && WellFormedCall(g, c) && Reportable(g, c, s)
    ensures s !in Candidates(g, st, c, junk) ==> Total(Mutate(g, st, c).0.book, s) == Total(st.book, s)
  {
    if c.AddCall? {
      assert s in Candidates(g, st, c, junk);
    } else {
      Mirrors.Covered(g, st, c, junk, s);
    }
  }

  lemma PublishParts(st: Sym, levels: seq<LevelDelta>, bid: Option<(int, nat)>, ask: Option<(int, nat)>)
    ensures var d := Publish(st, levels, bid, ask).published;
      && LevelsOf(d) == levels && BestOf(d, Bid) == bid && BestOf(d, Ask) == ask
      && (d.Some? <==> levels != [] || bid.Some? || ask.Some?)
  {
  }

  lemma StepPublishes(g: Grid, st: Sym, c: Call, junk: Side)
    requires g.tick > 0.0 && WellFormed(st.book) && Gated(c) && Step(g, st, c, junk).ok
    ensures !st.feed.stale && WellFormedCall(g, c)
    ensures var r, pre, was := Step(g, st, c, junk), st.book, Mutate(g, st, c).0;
      var post := r.sym.book;
      r.published == Publish(was, LevelDeltas(pre, post, Dedup(Candidates(g, st, c, junk))),
                             TobChange(pre, post, Bid), TobChange(pre, post, Ask)).published
  {
  }

  lemma DeltaParts(g: Grid, st: Sym, c: Call, junk: Side)
    requires g.tick > 0.0 && WellFormed(st.book) && Gated(c) && Step(g, st, c, junk).ok
    ensures !st.feed.stale && WellFormedCall(g, c)
    ensures var r, pre := Step(g, st, c, junk), st.book;
      var post := r.sym.book;
      && LevelsOf(r.published) == LevelDeltas(pre, post, Dedup(Candidates(g, st, c, junk)))
      && SendsBest(pre, post, r.published, Bid) && SendsBest(pre, post, r.published, Ask)
      && (r.published.Some? <==> LevelsOf(r.published) != [] || BestOf(r.published, Bid).Some?
                                 || BestOf(r.published, Ask).Some?)
  {
    StepPublishes(g, st, c, junk);
    var pre, post := st.book, Step(g, st, c, junk).sym.book;
    PublishParts(Mutate(g, st, c).0, LevelDeltas(pre, post, Dedup(Candidates(g, st, c, junk))),
                 TobChange(pre, post, Bid), TobChange(pre, post, Ask));
  }

  lemma ReportsChange(g: Grid, c: Call, pre: PlainBook, post: PlainBook, probes: seq<Spot>, l: seq<LevelDelta>)
    requires g.tick > 0.0 && WellFormed(pre) && WellFormed(post) && Reports(pre, post, probes, l)
    requires forall s :: s in probes ==> Reportable(g, c, s)
    requires forall s :: Reportable(g, c, s) && s !in probes ==> Total(post, s) == Total(pre, s)
    ensures SendsLevels(g, c, pre, post, l)
  {
  }

  lemma ProbesReportable(g: Grid, st: Sym, c: Call, junk: Side, s: Spot)
    requires g.tick > 0.0 && WellFormed(st.book) && Gated(c)
    ensures s in Candidates(g, st, c, junk) ==> Reportable(g, c, s)
  {
  }

  lemma LevelsAreTheChange(g: Grid, st: Sym, c: Call, junk: Side, post: PlainBook)
    requires g.tick > 0.0 && WellFormed(st.book) && Gated(c) && WellFormedCall(g, c)
    requires post == Mutate(g, st, c).0.book
    ensures SendsLevels(g, c, st.book, post, LevelDeltas(st.book, post, Dedup(Candidates(g, st, c, junk))))
  {
    var probes := Dedup(Candidates(g, st, c, junk));
    DeltasReport(st.book, post, probes);
    forall s | s in probes ensures Reportable(g, c, s) {
      ProbesReportable(g, st, c, junk, s);
    }
    forall s | Reportable(g, c, s) && s !in probes ensures Total(post, s) == Total(st.book, s) {
      AddMovesOnly(g, st, c, junk, s);
    }
    ReportsChange(g, c, st.book, post, probes, LevelDeltas(st.book, post, probes));
  }

  /** What an accepted call publishes: every change of a level or a best, nothing else, and nothing if there is none. */
  lemma DeltaIsTheChange(g: Grid, st: Sym, c: Call, junk: Side)
    requires g.tick > 0.0 && WellFormed(st.book) && Gated(c) && Step(g, st, c, junk).ok
    ensures var r := Step(g, st, c, junk);
      && SendsBest(st.book, r.sym.book, r.published, Bid) && SendsBest(st.book, r.sym.book, r.published, Ask)
      && SendsLevels(g, c, st.book, r.sym.book, LevelsOf(r.published))
      && (r.published.Some? <==> LevelsOf(r.published) != [] || BestOf(r.published, Bid).Some?
                                 || BestOf(r.published, Ask).Some?)
  {
    DeltaParts(g, st, c, junk);
    StepMutates(g, st, c, junk);
    LevelsAreTheChange(g, st, c, junk, Step(g, st, c, junk).sym.book);
  }

  /** A per-order snapshot, stale or not, leaves what clearing and adding leaves and sends both bests and no levels. */
  lemma SnapshotReloads(g: Grid, st: Sym, orders: seq<Order>, snapSeq: Option<nat>, junk: Side)
    requires g.tick > 0.0 && WellFormed(st.book)
    ensures var r := Step(g, st, OrdersSnapshot(orders, snapSeq), junk);
      && r.sym.book == Run(SnapshotOps(orders)) && LevelsOf(r.published) == []
      && BestOf(r.published, Bid) == Tob(r.sym.book, Bid) && BestOf(r.published, Ask) == Tob(r.sym.book, Ask)
  {
    SnapshotIsRun([], orders);
    assert [] + SnapshotOps(orders) == SnapshotOps(orders);
  }

  /** An aggregated snapshot shows the last full entry for each level, leaves the book alone and sends both bests. */
  lemma LevelsReload(g: Grid, st: Sym, levels: seq<(Side, real, LevelAgg)>, snapSeq: Option<nat>, junk: Side, x: Spot)
    requires g.tick > 0.0 && WellFormed(st.book)
    ensures var r, entries := Step(g, st, LevelsSnapshot(levels, snapSeq), junk), AggEntries(g, levels);
      && r.sym.book == st.book && LevelsOf(r.published) == []
      && BestOf(r.published, Bid) == Tob(st.book, Bid) && BestOf(r.published, Ask) == Tob(st.book, Ask)
      && (x in r.sym.agg <==> exists i :: LastFull(entries, i, x))
      && (forall i :: LastFull(entries, i, x) ==> x in r.sym.agg && r.sym.agg[x] == entries[i].1)
  {
    AggSnapshotMeans(AggEntries(g, levels), x);
  }

  // ---------- The last best a subscriber was sent ----------

  /** A print of some size on a level whose orders all have size 0: they are dropped and nothing is reported. */
  ghost predicate DropsEmpties(g: Grid, st: Sym, c: Call)
    requires g.tick > 0.0 && WellFormed(st.book)
  {
    && c.TradeCall? && !st.feed.stale && Acceptable(g, c)
    && exists side :: Hits(st.book, side, ToTicks(g, c.px), c.aggr)
         && Spot(side, ToTicks(g, c.px)) in st.book.queues && Total(st.book, Spot(side, ToTicks(g, c.px))) == 0
  }

  /** A gated call that reports no change publishes nothing, and leaves the book alone with exactly that exception. */
  lemma NoReportNoChange(g: Grid, st: Sym, c: Call, junk: Side)
    requires g.tick > 0.0 && WellFormed(st.book) && Gated(c)
    ensures var r := Step(g, st, c, junk);
      !r.ok ==> r.published.None? && (r.sym.book == st.book <==> !DropsEmpties(g, st, c))
  {
    CallTakesEffect(g, st, c, junk);
    var r := Step(g, st, c, junk);
    if !st.feed.stale && Acceptable(g, c) && !r.ok {
      if c.TradeCall? {
        StepMutates(g, st, c, junk);
        TradeMeans(st.book, ToTicks(g, c.px), c.size, c.aggr);
        if DropsEmpties(g, st, c) {
          EmptiesGo(st.book, ToTicks(g, c.px), c.size, c.aggr);
        } else {
          QuietTrade(st.book, ToTicks(g, c.px), c.size, c.aggr);
        }
      } else if c.UpdateCall? && c.key in st.book.orders {
        assert r.sym.book.orders == st.book.orders;
      }
    }
  }

  /** Hitting a level changes the book, whatever its size. */
  lemma EmptiesGo(b: PlainBook, price: int, qty: nat, aggr: Aggressor)
    requires WellFormed(b) && qty > 0
    requires exists side :: Hits(b, side, price, aggr) && Spot(side, price) in b.queues
    ensures Trade(b, price, qty, aggr) != b
  {
    ReachedIsBest(b, Bid, price);
    ReachedIsBest(b, Ask, price);
    var side :| Hits(b, side, price, aggr) && Spot(side, price) in b.queues;
    assert PassiveSide(b, price, aggr) == Some(side);
    var k := Itch.ConsumeHitsFront(b, Spot(side, price), qty);
  }

  /** A bid of size 0 at 10: selling 1 there drops it, reports nothing and publishes nothing. */
  lemma DropsEmptiesExample(k: OrderKey)
    ensures var b := Add(EMPTY, Order(k, Bid, 10, 0, 0));
      var g, st, c := Grid(1.0, false), NEW_SYM.(book := b), TradeCall(10.0, 1, Sell);
      && WellFormed(b) && DropsEmpties(g, st, c)
      && !Step(g, st, c, Bid).ok && Step(g, st, c, Bid).published.None? && Step(g, st, c, Bid).sym.book != b
  {
    var o := Order(k, Bid, 10, 0, 0);
    var b := Add(EMPTY, o);
    var g, st, c := Grid(1.0, false), NEW_SYM.(book := b), TradeCall(10.0, 1, Sell);
    AddMeans(EMPTY, o);
    TicksRoundTrip(g, 10);
    assert ToPrice(g, 10) == 10.0;
    var s := Spot(Bid, 10);
    assert QueueAt(b, s) == [k] && s in b.queues;
    assert Total(b, s) + Share(EMPTY, k, s) == Total(EMPTY, s) + 0;
    assert Hits(b, Bid, 10, Sell);
    CallTakesEffect(g, st, c, Bid);
    assert forall side :: Hits(b, side, 10, Sell) ==> side == Bid;
    NoReportNoChange(g, st, c, Bid);
  }

  lemma QuietTrade(b: PlainBook, price: int, qty: nat, aggr: Aggressor)
    requires WellFormed(b) && !Finds(b, price, qty, aggr) && qty > 0
    requires forall side ::
      (Hits(b, side, price, aggr) && Spot(side, price) in b.queues ==> Total(b, Spot(side, price)) > 0)
    ensures Trade(b, price, qty, aggr) == b
  {
    ReachedIsBest(b, Bid, price);
    ReachedIsBest(b, Ask, price);
    var side := PassiveSide(b, price, aggr);
    if side.Some? {
      assert Hits(b, side.value, price, aggr);
    }
  }

  lemma PositiveNeverDrops(g: Grid, st: Sym, c: Call)
    requires g.tick > 0.0 && WellFormed(st.book) && Mirrors.AllPositive(st.book)
    ensures !DropsEmpties(g, st, c)
  {
    if c.TradeCall? {
      Mirrors.LevelIsPositive(st.book, Spot(Bid, ToTicks(g, c.px)));
      Mirrors.LevelIsPositive(st.book, Spot(Ask, ToTicks(g, c.px)));
    }
  }

  /** The last best of a side sent in a run of calls; `first` is what the subscriber started from. */
  ghost function LastBest(g: Grid, st: Sym, first: Option<(int, nat)>, calls: seq<(Call, Side)>, side: Side)
    : Option<(int, nat)>
    requires g.tick > 0.0 && WellFormed(st.book)
  {
    if calls == [] then first else
    var n := |calls| - 1;
    var d := Step(g, Staleness.Run(g, st, calls[..n]), calls[n].0, calls[n].1).published;
    if BestOf(d, side).Some? then BestOf(d, side) else LastBest(g, st, first, calls[..n], side)
  }

  /** What was sent last is the book's best wherever the book has one. */
  ghost predicate Known(best: Option<(int, nat)>, b: PlainBook, side: Side)
    requires WellFormed(b)
  {
    Tob(b, side).Some? ==> best == Tob(b, side)
  }

  lemma StepKnown(g: Grid, st: Sym, c: Call, junk: Side, best: Option<(int, nat)>, side: Side)
    requires g.tick > 0.0 && WellFormed(st.book) && Known(best, st.book, side) && !DropsEmpties(g, st, c)
    ensures var r := Step(g, st, c, junk);
      Known(if BestOf(r.published, side).Some? then BestOf(r.published, side) else best, r.sym.book, side)
  {
    if Gated(c) {
      if Step(g, st, c, junk).ok { DeltaIsTheChange(g, st, c, junk); } else { NoReportNoChange(g, st, c, junk); }
    }
  }

  ghost predicate DropsAt(g: Grid, st: Sym, calls: seq<(Call, Side)>, n: nat)
    requires g.tick > 0.0 && WellFormed(st.book) && n < |calls|
  {
    DropsEmpties(g, Staleness.Run(g, st, calls[..n]), calls[n].0)
  }

  lemma {:induction false} RunKnown(g: Grid, st: Sym, first: Option<(int, nat)>, calls: seq<(Call, Side)>, side: Side)
    requires g.tick > 0.0 && WellFormed(st.book) && Known(first, st.book, side)
    requires forall n :: 0 <= n < |calls| ==> !DropsAt(g, st, calls, n)
    ensures Known(LastBest(g, st, first, calls, side), Staleness.Run(g, st, calls).book, side)
  {
    if calls != [] {
      var n := |calls| - 1;
      forall i | 0 <= i < n ensures !DropsAt(g, st, calls[..n], i) {
        assert calls[..n][..i] == calls[..i];
        assert !DropsAt(g, st, calls, i);
      }
      RunKnown(g, st, first, calls[..n], side);
      assert !DropsAt(g, st, calls, n);
      StepKnown(g, Staleness.Run(g, st, calls[..n]), calls[n].0, calls[n].1,
                LastBest(g, st, first, calls[..n], side), side);
    }
  }

  /**
   * In every run in which no print drops orders of size 0 unreported: the last
   * best a subscriber was sent is the book's best exactly when the side is not
   * empty now, or no best of it was ever sent. An emptied side sends nothing.
   */
  lemma LastBestIff(g: Grid, st: Sym, first: Option<(int, nat)>, calls: seq<(Call, Side)>, side: Side)
    requires g.tick > 0.0 && WellFormed(st.book) && Known(first, st.book, side)
    requires forall n :: 0 <= n < |calls| ==> !DropsAt(g, st, calls, n)
    ensures var last, now := LastBest(g, st, first, calls, side), Tob(Staleness.Run(g, st, calls).book, side);
      last == now <==> now.Some? || last.None?
  {
    RunKnown(g, st, first, calls, side);
  }
}
