/**
 * What each `OrderBookManager` call does to one symbol: gate on staleness,
 * validate, mutate the book, and publish a delta built from probes at a few
 * candidate levels. Double prices are reals.
 */
module ManagerSpec {
  import opened Seqs
  import opened BookTypes
  import opened PlainBooks
  import opened BookRuns

  // ---------- Ticks ----------

  const DEFAULT_TICK := 0.0001
  const MAX_TICKS := 9223372036854775807.0

  /** A symbol's tick size and whether its prices may be negative. */
  datatype Grid = Grid(tick: real, negativeOk: bool)

  /** Round half away from zero. */
  function Round(q: real): int {
    if q >= 0.0 then (q + 0.5).Floor else -(0.5 - q).Floor
  }

  function ToTicks(g: Grid, px: real): int
    requires g.tick > 0.0
  {
    var q := px / g.tick;
    if q > MAX_TICKS || q < -MAX_TICKS then 0
    else Round(if q >= 0.0 then q + 0.000000000001 else q - 0.000000000001)
  }

  function ToPrice(g: Grid, ticks: int): real {
    ticks as real * g.tick
  }

  predicate ValidPrice(g: Grid, px: real)
    requires g.tick > 0.0
  {
    && px != 0.0 && (g.negativeOk || px > 0.0)
    && var q := px / g.tick;
       -0.00000001 < q - Round(q) as real < 0.00000001
  }

  /** Grid prices survive the trip to ticks and back, and every non-zero one is valid when its sign is. */
  lemma TicksRoundTrip(g: Grid, ticks: int)
    requires g.tick > 0.0 && -MAX_TICKS <= ticks as real <= MAX_TICKS
    ensures ToTicks(g, ToPrice(g, ticks)) == ticks
    ensures ValidPrice(g, ToPrice(g, ticks)) == (ticks > 0 || (g.negativeOk && ticks < 0))
  {
    var q := ToPrice(g, ticks) / g.tick;
    assert q == ticks as real;
    assert ToPrice(g, ticks) > 0.0 <==> ticks > 0;
    assert ToPrice(g, ticks) < 0.0 <==> ticks < 0;
  }

  /** A valid price within range is quantised to the grid point it is within 1e-8 ticks of. */
  lemma ValidPriceIsNearTick(g: Grid, px: real)
    requires g.tick > 0.0 && ValidPrice(g, px) && -MAX_TICKS <= px / g.tick <= MAX_TICKS
    ensures -0.00000001 < px / g.tick - ToTicks(g, px) as real < 0.00000001
  {
    var q := px / g.tick;
    var e := if q >= 0.0 then q + 0.000000000001 else q - 0.000000000001;
    assert Round(e) == Round(q);
  }

  // ---------- State of one symbol ----------

  datatype FeedState = FeedState(lastSeq: nat, epoch: nat, stale: bool)

  datatype LevelDelta = LevelDelta(spot: Spot, totalSize: nat)

  datatype Delta = Delta(seqNo: nat, levels: seq<LevelDelta>, bid: Option<(int, nat)>, ask: Option<(int, nat)>)

  datatype Sym = Sym(
    book: PlainBook,
    counters: map<Scope, nat>,
    agg: map<Spot, LevelAgg>,
    feed: FeedState,
    pubSeq: nat)

  const NEW_FEED := FeedState(0, 0, false)
  const NEW_SYM := Sym(EMPTY, map[], map[], NEW_FEED, 0)

  /** `asked` tells whether the call asked the feed for a snapshot. */
  datatype Outcome = Outcome(sym: Sym, published: Option<Delta>, ok: bool, asked: bool := false)

  datatype Call =
    | AddCall(id: nat, side: Side, px: real, size: nat, priority: nat, scope: Scope, idMissing: bool)
    | UpdateCall(key: OrderKey, newPx: Option<real>, newSize: Option<nat>)
    | DeleteCall(key: OrderKey)
    | PriorityCall(key: OrderKey, priority: nat)
    | TradeCall(px: real, size: nat, aggr: Aggressor)
    | SummaryCall(side: Side, px: real, total: nat, count: Option<nat>)
    | OrdersSnapshot(orders: seq<Order>, snapSeq: Option<nat>)
    | LevelsSnapshot(levels: seq<(Side, real, LevelAgg)>, snapSeq: Option<nat>)
    | SeqCall(seqNo: nat)
    | ResetCall(epoch: nat)

  /** Calls that a stale feed gates. */
  predicate Gated(c: Call) {
    c.AddCall? || c.UpdateCall? || c.DeleteCall? || c.PriorityCall? || c.TradeCall? || c.SummaryCall?
  }

  predicate WellFormedCall(g: Grid, c: Call)
    requires g.tick > 0.0
  {
    match c
    case AddCall(_, _, px, size, _, _, _) => ValidPrice(g, px) && size > 0
    case UpdateCall(_, px, size) =>
      && (px.Some? || size.Some?)
      && (px.Some? ==> ValidPrice(g, px.value))
      && (size.Some? ==> size.value > 0)
    case TradeCall(px, size, _) => ValidPrice(g, px) && size > 0
    case SummaryCall(_, px, _, _) => ValidPrice(g, px)
    case _ => true
  }

  // ---------- Mutation of the book ----------

  function NewKey(st: Sym, c: Call): OrderKey
    requires c.AddCall?
  {
    ScopedKey(st.counters, OrderKey(c.id, Scope(0, 0), false), c.scope, c.idMissing)
  }

  function NewOrder(g: Grid, st: Sym, c: Call): Order
    requires g.tick > 0.0 && c.AddCall?
  {
    Order(NewKey(st, c), c.side, ToTicks(g, c.px), c.size, c.priority)
  }

  function TicksOf(g: Grid, px: Option<real>): Option<int>
    requires g.tick > 0.0
  {
    if px.Some? then Some(ToTicks(g, px.value)) else None
  }

  /** The mutator each call hands to the delta wrapper, and whether it reports a change. */
  ghost function Mutate(g: Grid, st: Sym, c: Call): (r: (Sym, bool))
    requires g.tick > 0.0 && WellFormed(st.book) && Gated(c)
    ensures WellFormed(r.0.book) && r.0.feed == st.feed && r.0.pubSeq == st.pubSeq
  {
    match c
    case AddCall(id, _, _, _, _, scope, missing) =>
      AddKeeps(st.book, NewOrder(g, st, c));
      (st.(book := Add(st.book, NewOrder(g, st, c)),
           counters := CountersAfter(st.counters, OrderKey(id, Scope(0, 0), false), scope, missing)), true)
    case UpdateCall(key, px, size) =>
      UpdateKeeps(st.book, key, TicksOf(g, px), size);
      var (b, changed) := Update(st.book, key, TicksOf(g, px), size);
      (st.(book := b), changed)
    case DeleteCall(key) =>
      DeleteKeeps(st.book, key);
      (st.(book := Delete(st.book, key)), key in st.book.orders)
    case PriorityCall(key, priority) =>
      ReprioritiseKeeps(st.book, key, priority);
      var (b, changed) := Reprioritise(st.book, key, priority);
      (st.(book := b), changed)
    case TradeCall(px, size, aggr) =>
      var p := ToTicks(g, px);
      var side := PassiveSide(st.book, p, aggr);
      (st.(book := Trade(st.book, p, size, aggr)), side.Some? && Fill(st.book, Spot(side.value, p), size) > 0)
    case SummaryCall(side, px, total, count) =>
      var (agg, changed) := AggSummary(st.agg, Spot(side, ToTicks(g, px)), total, count);
      (st.(agg := agg), changed)
  }

  /** The levels a call probes; an update of an unknown key probes an arbitrary side. */
  ghost function Candidates(g: Grid, st: Sym, c: Call, junk: Side): seq<Spot>
    requires g.tick > 0.0 && WellFormed(st.book) && Gated(c)
  {
    match c
    case AddCall(_, side, px, _, _, _, _) => [Spot(side, ToTicks(g, px))]
    case UpdateCall(key, px, _) =>
      var live := key in st.book.orders;
      (if live then [SpotOf(st.book.orders[key])] else [])
      + (if px.Some? then [Spot(if live then st.book.orders[key].side else junk, ToTicks(g, px.value))] else [])
    case DeleteCall(key) => if key in st.book.orders then [SpotOf(st.book.orders[key])] else []
    case PriorityCall(_, _) => []
    case TradeCall(px, _, _) =>
      var p := ToTicks(g, px);
      (if Total(st.book, Spot(Bid, p)) > 0 then [Spot(Bid, p)] else [])
      + (if Total(st.book, Spot(Ask, p)) > 0 then [Spot(Ask, p)] else [])
    case SummaryCall(side, px, _, _) => [Spot(side, ToTicks(g, px))]
  }

  // ---------- Deltas ----------

  function Dedup(spots: seq<Spot>): (r: seq<Spot>)
    ensures forall s :: s in r <==> s in spots
    ensures Distinct(r)
  {
    if spots == [] then [] else
    var n := |spots| - 1;
    var r := Dedup(spots[..n]);
    assert forall s :: s in spots <==> s in spots[..n] || s == spots[n];
    if spots[n] in r then r else r + [spots[n]]
  }

  ghost function LevelDeltas(pre: PlainBook, post: PlainBook, probes: seq<Spot>): seq<LevelDelta>
    requires WellFormed(pre) && WellFormed(post)
  {
    if probes == [] then [] else
    var n := |probes| - 1;
    var s := probes[n];
    LevelDeltas(pre, post, probes[..n])
    + (if Total(post, s) != Total(pre, s) then [LevelDelta(s, Total(post, s))] else [])
  }

  /** Best price and its size on one side. */
  ghost function Tob(b: PlainBook, side: Side): Option<(int, nat)>
    requires WellFormed(b)
  {
    var p := BestPrice(b, side);
    if p.None? then None else Some((p.value, Total(b, Spot(side, p.value))))
  }

  ghost function TobChange(pre: PlainBook, post: PlainBook, side: Side): Option<(int, nat)>
    requires WellFormed(pre) && WellFormed(post)
  {
    if Tob(pre, side) != Tob(post, side) then Tob(post, side) else None
  }

  /** A published delta takes the next number; an unpublished one takes none. */
  predicate Numbered(st: Sym, r: Outcome) {
    if r.published.None? then r.sym.pubSeq == st.pubSeq
    else r.sym.pubSeq == st.pubSeq + 1 == r.published.value.seqNo
  }

  /** A published best bid or ask is the book's. */
  ghost predicate ShowsBest(r: Outcome)
    requires WellFormed(r.sym.book)
  {
    r.published.Some? ==>
      && (r.published.value.bid.Some? ==> r.published.value.bid == Tob(r.sym.book, Bid))
      && (r.published.value.ask.Some? ==> r.published.value.ask == Tob(r.sym.book, Ask))
  }

  function Publish(st: Sym, levels: seq<LevelDelta>, bid: Option<(int, nat)>, ask: Option<(int, nat)>): (r: Outcome)
    ensures r.sym == st.(pubSeq := r.sym.pubSeq) && Numbered(st, r) && !r.asked
    ensures r.published.Some? ==> r.published.value.bid == bid && r.published.value.ask == ask
  {
    if levels == [] && bid.None? && ask.None? then Outcome(st, None, true)
    else
      var n := st.pubSeq + 1;
      Outcome(st.(pubSeq := n), Some(Delta(n, levels, bid, ask)), true)
  }

  /** Probe, mutate, compare, publish. */
  ghost function MutateWithDelta(g: Grid, st: Sym, c: Call, probes: seq<Spot>): (r: Outcome)
    requires g.tick > 0.0 && WellFormed(st.book) && Gated(c)
    ensures WellFormed(r.sym.book) && Numbered(st, r) && ShowsBest(r) && r.sym.feed == st.feed && !r.asked
  {
    var (post, changed) := Mutate(g, st, c);
    if !changed then Outcome(post, None, false)
    else Publish(post, LevelDeltas(st.book, post.book, Dedup(probes)),
                 TobChange(st.book, post.book, Bid), TobChange(st.book, post.book, Ask))
  }

  // ---------- Sequencing and snapshots ----------

  function OnSeq(f: FeedState, seqNo: nat): (FeedState, bool) {
    if f.stale then (f, false)
    else if f.lastSeq == 0 || seqNo == f.lastSeq + 1 then (f.(lastSeq := seqNo), true)
    else (f.(stale := true), false)
  }

  /** A gap and a reset ask for a snapshot. */
  predicate Asks(f: FeedState, c: Call) {
    c.ResetCall? || (c.SeqCall? && !f.stale && OnSeq(f, c.seqNo).0.stale)
  }

  function Resumed(f: FeedState, snapSeq: Option<nat>): FeedState {
    f.(stale := false, lastSeq := if snapSeq.Some? then snapSeq.value else f.lastSeq)
  }

  function FeedAfter(f: FeedState, c: Call): FeedState {
    match c
    case OrdersSnapshot(_, snapSeq) => Resumed(f, snapSeq)
    case LevelsSnapshot(_, snapSeq) => Resumed(f, snapSeq)
    case SeqCall(seqNo) => OnSeq(f, seqNo).0
    case ResetCall(epoch) => FeedState(0, epoch, true)
    case _ => f
  }

  function AggEntries(g: Grid, levels: seq<(Side, real, LevelAgg)>): seq<(Spot, LevelAgg)>
    requires g.tick > 0.0
  {
    seq(|levels|, i requires 0 <= i < |levels| =>
      (Spot(levels[i].0, ToTicks(g, levels[i].1)), levels[i].2))
  }

  lemma {:induction false} AddAllKeeps(orders: seq<Order>)
    ensures WellFormed(AddAll(EMPTY, orders))
  {
    if orders != [] {
      AddAllKeeps(orders[..|orders| - 1]);
      AddKeeps(AddAll(EMPTY, orders[..|orders| - 1]), orders[|orders| - 1]);
    }
  }

  /** One manager call on one symbol. */
  ghost function Step(g: Grid, st: Sym, c: Call, junk: Side): (r: Outcome)
    requires g.tick > 0.0 && WellFormed(st.book)
    ensures WellFormed(r.sym.book) && Numbered(st, r) && ShowsBest(r)
    ensures r.sym.feed == FeedAfter(st.feed, c)
    ensures c.SeqCall? ==> r.ok == OnSeq(st.feed, c.seqNo).1
    ensures r.asked == Asks(st.feed, c)
  {
    if Gated(c) then
      if st.feed.stale || !WellFormedCall(g, c) then Outcome(st, None, false)
      else MutateWithDelta(g, st, c, Candidates(g, st, c, junk))
    else match c
      case OrdersSnapshot(orders, snapSeq) =>
        AddAllKeeps(orders);
        var b := AddAll(EMPTY, orders);
        Publish(st.(book := b, feed := Resumed(st.feed, snapSeq)), [], Tob(b, Bid), Tob(b, Ask))
      case LevelsSnapshot(levels, snapSeq) =>
        Publish(st.(agg := AggSnapshot(AggEntries(g, levels)), feed := Resumed(st.feed, snapSeq)),
                [], Tob(st.book, Bid), Tob(st.book, Ask))
      case SeqCall(seqNo) =>
        var (f, ok) := OnSeq(st.feed, seqNo);
        Outcome(st.(feed := f), None, ok, f.stale && !st.feed.stale)
      case ResetCall(epoch) => Outcome(st.(feed := FeedState(0, epoch, true)), None, true, true)
  }
}
