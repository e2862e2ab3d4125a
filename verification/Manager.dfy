/**
 * `OrderBookManager`: one book per symbol, feed states, publication numbers
 * and the event bus, changed in place. Every call does to its symbol what
 * `ManagerSpec.Step` says and leaves every other symbol alone. Subscribed
 * handlers are the log of deltas they receive.
 */
module Managers {
  import opened Seqs
  import opened BookTypes
  import P = PlainBooks
  import opened OrderBooks
  import opened ManagerSpec

  /** The side an unlocated update probes is read before it is set; it never matters. */
  lemma JunkSideIsHarmless(g: Grid, st: Sym, c: Call, a: Side, b: Side)
    requires g.tick > 0.0 && P.WellFormed(st.book)
    ensures Step(g, st, c, a) == Step(g, st, c, b)
  {
  }

  lemma {:induction false} DedupStep(spots: seq<Spot>, n: nat)
    requires n < |spots|
    ensures Dedup(spots[..n + 1])
         == if spots[n] in Dedup(spots[..n]) then Dedup(spots[..n]) else Dedup(spots[..n]) + [spots[n]]
  {
    assert spots[..n + 1][..n] == spots[..n];
  }

  lemma {:induction false} LevelDeltasStep(pre: P.PlainBook, post: P.PlainBook, probes: seq<Spot>, n: nat)
    requires n < |probes| && P.WellFormed(pre) && P.WellFormed(post)
    ensures LevelDeltas(pre, post, probes[..n + 1]) == LevelDeltas(pre, post, probes[..n])
      + (if P.Total(post, probes[n]) != P.Total(pre, probes[n])
         then [LevelDelta(probes[n], P.Total(post, probes[n]))] else [])
  {
    assert probes[..n + 1][..n] == probes[..n];
  }

  /** `r` is what the wrapper yields; the equation is there where `Unfold(0)` is asserted. */
  ghost predicate IsOutcome(r: Outcome, g: Grid, st: Sym, c: Call, probes: seq<Spot>)
    requires g.tick > 0.0 && P.WellFormed(st.book) && Gated(c)
  {
    forall n {:trigger Unfold(n)} :: Unfold(n) ==> r == ManagerSpec.MutateWithDelta(g, st, c, probes)
  }

  lemma OutcomeOfStep(g: Grid, st: Sym, c: Call, junk: Side)
    requires g.tick > 0.0 && P.WellFormed(st.book) && Gated(c) && !st.feed.stale && WellFormedCall(g, c)
    ensures IsOutcome(Step(g, st, c, Bid), g, st, c, Candidates(g, st, c, junk))
  {
    JunkSideIsHarmless(g, st, c, junk, Bid);
  }

  /** The per-symbol view of one book object. */
  ghost function SymWith(b: OrderBook, f: FeedState, n: nat): Sym
    reads b
  {
    Sym(b.book, b.synthCounters, b.aggLevels, f, n)
  }

  /** Run the mutator a call hands to the wrapper. */
  method Mutator(b: OrderBook, g: Grid, c: Call, ghost f: FeedState, ghost n: nat) returns (changed: bool)
    requires b.Valid() && g.tick > 0.0 && Gated(c)
    modifies b
    ensures b.Valid()
    ensures (SymWith(b, f, n), changed) == Mutate(g, old(SymWith(b, f, n)), c)
  {
    match c
    case AddCall(id, side, px, size, priority, scope, idMissing) =>
      var o := Order(OrderKey(id, Scope(0, 0), false), side, ToTicks(g, px), size, priority);
      var key := b.ApplyAdd(o, scope, idMissing);
      changed := true;
    case UpdateCall(key, px, size) => changed := b.UpdateImpl(key, TicksOf(g, px), size);
    case DeleteCall(key) => changed := b.DeleteImpl(key);
    case PriorityCall(key, priority) => changed := b.PriorityImpl(key, priority);
    case TradeCall(px, size, aggr) => changed := b.ApplyTrade(ToTicks(g, px), size, aggr);
    case SummaryCall(side, px, total, count) =>
      changed := b.ApplyLevelSummary(Spot(side, ToTicks(g, px)), total, count);
  }

  /** Top of book of one side. */
  method TopOfBook(b: OrderBook, side: Side) returns (r: Option<(int, nat)>)
    requires b.Valid()
    ensures r == Tob(b.book, side)
  {
    var p := b.BestPrice(side);
    var size := b.BestSize(side);
    return if p.None? then None else Some((p.value, size));
  }

  /** Probe the candidate levels, each once. */
  method Probe(b: OrderBook, candidates: seq<Spot>) returns (probes: seq<Spot>, before: seq<nat>)
    requires b.Valid()
    ensures probes == Dedup(candidates) && |before| == |probes|
    ensures forall i :: 0 <= i < |probes| ==> before[i] == P.Total(b.book, probes[i])
  {
    probes, before := [], [];
    for i := 0 to |candidates|
      invariant probes == Dedup(candidates[..i]) && |before| == |probes|
      invariant forall j :: 0 <= j < |probes| ==> before[j] == P.Total(b.book, probes[j])
    {
      DedupStep(candidates, i);
      var c := candidates[i];
      if c !in probes {
        var size := b.LevelSize(c);
        probes, before := probes + [c], before + [size];
      }
    }
    assert candidates[..|candidates|] == candidates;
  }

  /** Compare each probe with the level's size now. */
  method Compare(b: OrderBook, probes: seq<Spot>, before: seq<nat>, ghost pre: P.PlainBook)
    returns (levels: seq<LevelDelta>)
    requires b.Valid() && P.WellFormed(pre) && |before| == |probes|
    requires forall i :: 0 <= i < |probes| ==> before[i] == P.Total(pre, probes[i])
    ensures levels == LevelDeltas(pre, b.book, probes)
  {
    levels := [];
    for i := 0 to |probes|
      invariant levels == LevelDeltas(pre, b.book, probes[..i])
    {
      LevelDeltasStep(pre, b.book, probes, i);
      var after := b.LevelSize(probes[i]);
      if after != before[i] {
        levels := levels + [LevelDelta(probes[i], after)];
      }
    }
    assert probes[..|probes|] == probes;
  }

  /** The before/after wrapper on one book: probe, mutate, compare. */
  method BookWithDelta(b: OrderBook, g: Grid, candidates: seq<Spot>, c: Call,
                       ghost f: FeedState, ghost n: nat, ghost r: Outcome)
    returns (changed: bool, levels: seq<LevelDelta>, bid: Option<(int, nat)>, ask: Option<(int, nat)>)
    requires b.Valid() && g.tick > 0.0 && Gated(c) && IsOutcome(r, g, SymWith(b, f, n), c, candidates)
    modifies b
    ensures b.Valid()
    ensures r == if changed then Publish(SymWith(b, f, n), levels, bid, ask) else Outcome(SymWith(b, f, n), None, false)
    // a best is handed on exactly when there is one and it is not what it was
    ensures changed ==> bid == if Tob(b.book, Bid) == old(Tob(b.book, Bid)) then None else Tob(b.book, Bid)
    ensures changed ==> ask == if Tob(b.book, Ask) == old(Tob(b.book, Ask)) then None else Tob(b.book, Ask)
  {
    levels, bid, ask := [], None, None;
    ghost var pre := b.book;
    assert Unfold(0);
    var preBid := TopOfBook(b, Bid);
    var preAsk := TopOfBook(b, Ask);
    var probes, before := Probe(b, candidates);
    changed := Mutator(b, g, c, f, n);
    if changed {
      var postBid := TopOfBook(b, Bid);
      var postAsk := TopOfBook(b, Ask);
      levels := Compare(b, probes, before, pre);
      bid := if preBid != postBid then postBid else None;
      ask := if preAsk != postAsk then postAsk else None;
    }
  }

  function LogEntry(symbol: string, d: Option<Delta>): seq<(string, Delta)> {
    if d.Some? then [(symbol, d.value)] else []
  }

  class OrderBookManager {
    var books: map<string, OrderBook>
    var tickSize: map<string, real>
    var feed: map<string, FeedState>
    var pubSeq: map<string, nat>
    var log: seq<(string, Delta)>
    /** The symbols a snapshot was requested for, in order, and whether a requester is set. */
    var requests: seq<string>
    var canRequest: bool
    var allowNegativePrices: bool

    ghost predicate Holds(s: string)
      requires s in books
      reads `books, books.Values
    {
      books[s].symbol == s && books[s].Valid()
    }

    ghost predicate Valid()
      reads `books, `tickSize, books.Values
    {
      && (forall s {:trigger Holds(s)} :: s in books ==> Holds(s))
      && (forall s :: s in tickSize ==> tickSize[s] > 0.0)
    }

    function FeedOf(s: string): FeedState
      reads this
    {
      if s in feed then feed[s] else NEW_FEED
    }

    function SeqOf(s: string): nat
      reads this
    {
      if s in pubSeq then pubSeq[s] else 0
    }

    function GridOf(s: string): (g: Grid)
      reads this
    {
      Grid(if s in tickSize then tickSize[s] else DEFAULT_TICK, allowNegativePrices)
    }

    ghost function SymOf(s: string): (st: Sym)
      reads this, books.Values
      ensures Valid() ==> P.WellFormed(st.book)
    {
      assert Valid() && s in books ==> Holds(s);
      if s in books then SymWith(books[s], FeedOf(s), SeqOf(s))
      else Sym(P.EMPTY, map[], map[], FeedOf(s), SeqOf(s))
    }

    /** Every other symbol's book object, feed state and publication number are untouched. */
    twostate predicate OnlyTouches(symbol: string)
      reads this, books.Values
    {
      && old(books.Keys) <= books.Keys <= old(books.Keys) + {symbol}
      && (forall s :: s in old(books) ==> books[s] == old(books[s]))
      && (forall s :: s in old(books) && s != symbol ==> unchanged(books[s]))
      && (symbol in books && symbol !in old(books) ==> fresh(books[symbol]))
      && feed - {symbol} == old(feed) - {symbol} && pubSeq - {symbol} == old(pubSeq) - {symbol}
      && tickSize == old(tickSize) && allowNegativePrices == old(allowNegativePrices)
    }

    twostate lemma StillValid(symbol: string)
      requires old(Valid()) && OnlyTouches(symbol) && (symbol in books ==> Holds(symbol))
      ensures Valid()
    {
      forall s | s in books ensures Holds(s) {
        if s != symbol {
          assert old(Holds(s));
        }
      }
    }

    /** The call changed its own symbol as specified and published what it says. */
    twostate predicate Did(symbol: string, r: Outcome, ok: bool)
      requires old(Valid())
      reads this, books.Values
    {
      && Valid() && OnlyTouches(symbol)
      && SymOf(symbol) == r.sym && ok == r.ok
      && log == old(log) + LogEntry(symbol, r.published)
      && canRequest == old(canRequest)
      && requests == old(requests) + if r.asked && canRequest then [symbol] else []
    }

    constructor (canRequest: bool)
      ensures Valid() && log == [] && requests == [] && this.canRequest == canRequest
      ensures forall s :: SymOf(s) == NEW_SYM
    {
      books, tickSize, feed, pubSeq, log, allowNegativePrices := map[], map[], map[], map[], [], false;
      requests, this.canRequest := [], canRequest;
    }

    method SetTickSize(symbol: string, tick: real)
      requires Valid()
      modifies `tickSize
      ensures Valid() && GridOf(symbol).tick == if tick > 0.0 then tick else DEFAULT_TICK
      ensures forall s :: s != symbol ==> GridOf(s) == old(GridOf(s))
    {
      tickSize := tickSize[symbol := if tick > 0.0 then tick else DEFAULT_TICK];
    }

    method GetOrCreateBook(symbol: string) returns (b: OrderBook)
      requires Valid()
      modifies `books
      ensures Valid() && OnlyTouches(symbol) && symbol in books && books[symbol] == b
      ensures SymOf(symbol) == old(SymOf(symbol)) && (symbol in old(books) ==> unchanged(b))
      ensures forall s :: s in books && s != symbol ==> books[s] != b
    {
      assert forall s :: s in books && Holds(s) ==> books[s].symbol == s;
      if symbol in books { return books[symbol]; }
      b := new OrderBook(symbol);
      books := books[symbol := b];
      assert Holds(symbol);
      StillValid(symbol);
    }

    method MutateBook(symbol: string, candidates: seq<Spot>, c: Call, ghost r: Outcome)
      returns (changed: bool, levels: seq<LevelDelta>, bid: Option<(int, nat)>, ask: Option<(int, nat)>)
      requires Valid() && Gated(c)
      requires IsOutcome(r, GridOf(symbol), SymOf(symbol), c, candidates)
      modifies `books, books.Values
      ensures Valid() && OnlyTouches(symbol)
      ensures r == if changed then Publish(SymOf(symbol), levels, bid, ask) else Outcome(SymOf(symbol), None, false)
    {
      var b := GetOrCreateBook(symbol);
      assert Holds(symbol);
      changed, levels, bid, ask :=
        BookWithDelta(b, GridOf(symbol), candidates, c, FeedOf(symbol), SeqOf(symbol), r);
      assert Holds(symbol);
      StillValid(symbol);
    }

    method MutateWithDelta(symbol: string, candidates: seq<Spot>, c: Call, ghost r: Outcome) returns (ok: bool)
      requires Valid() && Gated(c)
      requires IsOutcome(r, GridOf(symbol), SymOf(symbol), c, candidates)
      modifies this, books.Values
      ensures Did(symbol, r, ok)
    {
      var changed, levels, bid, ask := MutateBook(symbol, candidates, c, r);
      ok := changed;
      if changed {
        MaybePublishDelta(symbol, levels, bid, ask);
      }
    }

    method MaybePublishDelta(symbol: string, levels: seq<LevelDelta>, bid: Option<(int, nat)>, ask: Option<(int, nat)>)
      requires Valid()
      modifies `pubSeq, `log
      ensures Valid() && pubSeq - {symbol} == old(pubSeq) - {symbol}
      ensures SymOf(symbol) == Publish(old(SymOf(symbol)), levels, bid, ask).sym
      ensures log == old(log) + LogEntry(symbol, Publish(old(SymOf(symbol)), levels, bid, ask).published)
    {
      if levels == [] && bid.None? && ask.None? { return; }
      pubSeq := pubSeq[symbol := SeqOf(symbol) + 1];
      log := log + [(symbol, Delta(pubSeq[symbol], levels, bid, ask))];
    }

    // ---------- Calls ----------

    method OnAdd(symbol: string, id: nat, side: Side, px: real, size: nat, priority: nat, scope: Scope, idMissing: bool)
      returns (ok: bool)
      requires Valid()
      modifies this, books.Values
      ensures Did(symbol, Step(old(GridOf(symbol)), old(SymOf(symbol)),
                               AddCall(id, side, px, size, priority, scope, idMissing), Bid), ok)
    {
      var c, g := AddCall(id, side, px, size, priority, scope, idMissing), GridOf(symbol);
      if FeedOf(symbol).stale || !ValidPrice(g, px) || size == 0 { return false; }
      ok := MutateWithDelta(symbol, [Spot(side, ToTicks(g, px))], c, Step(g, SymOf(symbol), c, Bid));
    }

    method OnUpdate(symbol: string, key: OrderKey, px: Option<real>, size: Option<nat>) returns (ok: bool)
      requires Valid()
      modifies this, books.Values
      ensures Did(symbol, Step(old(GridOf(symbol)), old(SymOf(symbol)), UpdateCall(key, px, size), Bid), ok)
    {
      var c, g := UpdateCall(key, px, size), GridOf(symbol);
      if FeedOf(symbol).stale || (px.None? && size.None?) { return false; }
      if px.Some? && !ValidPrice(g, px.value) { return false; }
      if size.Some? && size.value == 0 { return false; }
      var candidates, junk := UpdateCandidates(symbol, key, px, size);
      OutcomeOfStep(g, SymOf(symbol), c, junk);
      ok := MutateWithDelta(symbol, candidates, c, Step(g, SymOf(symbol), c, Bid));
    }

    method UpdateCandidates(symbol: string, key: OrderKey, px: Option<real>, size: Option<nat>)
      returns (candidates: seq<Spot>, ghost junk: Side)
      requires Valid()
      ensures candidates == Candidates(GridOf(symbol), SymOf(symbol), UpdateCall(key, px, size), junk)
    {
      var oldSide: Side := *;
      junk := oldSide;
      candidates := [];
      var at := LocateIn(symbol, key);
      if at.Some? {
        oldSide := at.value.side;
        candidates := candidates + [at.value];
      }
      if px.Some? {
        candidates := candidates + [Spot(oldSide, ToTicks(GridOf(symbol), px.value))];
      }
    }

    method OnDelete(symbol: string, key: OrderKey) returns (ok: bool)
      requires Valid()
      modifies this, books.Values
      ensures Did(symbol, Step(old(GridOf(symbol)), old(SymOf(symbol)), DeleteCall(key), Bid), ok)
    {
      if FeedOf(symbol).stale { return false; }
      var at := LocateIn(symbol, key);
      ok := MutateWithDelta(symbol, if at.Some? then [at.value] else [], DeleteCall(key),
                            Step(GridOf(symbol), SymOf(symbol), DeleteCall(key), Bid));
    }

    method OnPriority(symbol: string, key: OrderKey, priority: nat) returns (ok: bool)
      requires Valid()
      modifies this, books.Values
      ensures Did(symbol, Step(old(GridOf(symbol)), old(SymOf(symbol)), PriorityCall(key, priority), Bid), ok)
    {
      if FeedOf(symbol).stale { return false; }
      ok := MutateWithDelta(symbol, [], PriorityCall(key, priority),
                            Step(GridOf(symbol), SymOf(symbol), PriorityCall(key, priority), Bid));
    }

    method OnTrade(symbol: string, px: real, size: nat, aggr: Aggressor) returns (ok: bool)
      requires Valid()
      modifies this, books.Values
      ensures Did(symbol, Step(old(GridOf(symbol)), old(SymOf(symbol)), TradeCall(px, size, aggr), Bid), ok)
    {
      var c, g := TradeCall(px, size, aggr), GridOf(symbol);
      if FeedOf(symbol).stale || !ValidPrice(g, px) || size == 0 { return false; }
      var p := ToTicks(g, px);
      var candidates := LiveLevelsAt(symbol, p);
      ok := MutateWithDelta(symbol, candidates, c, Step(g, SymOf(symbol), c, Bid));
    }

    method OnLevelSummary(symbol: string, side: Side, px: real, total: nat, count: Option<nat>) returns (ok: bool)
      requires Valid()
      modifies this, books.Values
      ensures Did(symbol, Step(old(GridOf(symbol)), old(SymOf(symbol)), SummaryCall(side, px, total, count), Bid), ok)
    {
      var c, g := SummaryCall(side, px, total, count), GridOf(symbol);
      if FeedOf(symbol).stale || !ValidPrice(g, px) { return false; }
      ok := MutateWithDelta(symbol, [Spot(side, ToTicks(g, px))], c, Step(g, SymOf(symbol), c, Bid));
    }

    // ---------- Lookups the calls make before they mutate ----------

    method LocateIn(symbol: string, key: OrderKey) returns (r: Option<Spot>)
      requires Valid()
      ensures var orders := SymOf(symbol).book.orders;
        r == if key in orders then Some(SpotOf(orders[key])) else None
    {
      if symbol !in books { return None; }
      assert Holds(symbol);
      r := books[symbol].Locate(key);
    }

    method LiveLevelsAt(symbol: string, p: int) returns (spots: seq<Spot>)
      requires Valid()
      ensures spots == (if P.Total(SymOf(symbol).book, Spot(Bid, p)) > 0 then [Spot(Bid, p)] else [])
        + (if P.Total(SymOf(symbol).book, Spot(Ask, p)) > 0 then [Spot(Ask, p)] else [])
    {
      if symbol !in books { return []; }
      assert Holds(symbol);
      var bid := books[symbol].LevelSize(Spot(Bid, p));
      var ask := books[symbol].LevelSize(Spot(Ask, p));
      spots := (if bid > 0 then [Spot(Bid, p)] else []) + (if ask > 0 then [Spot(Ask, p)] else []);
    }

    // ---------- Snapshots and sequencing ----------

    method ReloadOrders(symbol: string, orders: seq<Order>) returns (b: OrderBook)
      requires Valid()
      modifies `books, books.Values
      ensures Valid() && OnlyTouches(symbol) && symbol in books && books[symbol] == b
      ensures SymOf(symbol) == old(SymOf(symbol)).(book := P.AddAll(P.EMPTY, orders))
    {
      b := GetOrCreateBook(symbol);
      assert Holds(symbol);
      b.ApplySnapshotPerOrder(orders);
      assert Holds(symbol);
      StillValid(symbol);
    }

    method ReloadLevels(symbol: string, levels: seq<(Side, real, LevelAgg)>) returns (b: OrderBook)
      requires Valid()
      modifies `books, books.Values
      ensures Valid() && OnlyTouches(symbol) && symbol in books && books[symbol] == b
      ensures SymOf(symbol) == old(SymOf(symbol)).(agg := P.AggSnapshot(AggEntries(GridOf(symbol), levels)))
    {
      b := GetOrCreateBook(symbol);
      assert Holds(symbol);
      b.ApplySnapshotAggregated(AggEntries(GridOf(symbol), levels));
      assert Holds(symbol);
      StillValid(symbol);
    }

    method LoadOrders(symbol: string, orders: seq<Order>, snapSeq: Option<nat>) returns (b: OrderBook)
      requires Valid()
      modifies `books, `feed, books.Values
      ensures Valid() && OnlyTouches(symbol) && symbol in books && books[symbol] == b
      ensures SymOf(symbol) == old(SymOf(symbol)).(book := P.AddAll(P.EMPTY, orders),
                                                   feed := Resumed(old(FeedOf(symbol)), snapSeq))
    {
      b := ReloadOrders(symbol, orders);
      SetFeed(symbol, Resumed(FeedOf(symbol), snapSeq));
    }

    method LoadLevels(symbol: string, levels: seq<(Side, real, LevelAgg)>, snapSeq: Option<nat>) returns (b: OrderBook)
      requires Valid()
      modifies `books, `feed, books.Values
      ensures Valid() && OnlyTouches(symbol) && symbol in books && books[symbol] == b
      ensures SymOf(symbol) == old(SymOf(symbol)).(agg := P.AggSnapshot(AggEntries(GridOf(symbol), levels)),
                                                   feed := Resumed(old(FeedOf(symbol)), snapSeq))
    {
      b := ReloadLevels(symbol, levels);
      SetFeed(symbol, Resumed(FeedOf(symbol), snapSeq));
    }

    method OnSnapshotPerOrder(symbol: string, orders: seq<Order>, snapSeq: Option<nat>)
      requires Valid()
      modifies this, books.Values
      ensures Did(symbol, Step(old(GridOf(symbol)), old(SymOf(symbol)), OrdersSnapshot(orders, snapSeq), Bid), true)
    {
      ghost var st := SymOf(symbol);
      var b := LoadOrders(symbol, orders, snapSeq);
      assert Step(GridOf(symbol), st, OrdersSnapshot(orders, snapSeq), Bid)
          == Publish(SymOf(symbol), [], Tob(b.book, Bid), Tob(b.book, Ask));
      AnnounceBest(symbol, b);
    }

    method OnSnapshotAggregated(symbol: string, levels: seq<(Side, real, LevelAgg)>, snapSeq: Option<nat>)
      requires Valid()
      modifies this, books.Values
      ensures Did(symbol, Step(old(GridOf(symbol)), old(SymOf(symbol)), LevelsSnapshot(levels, snapSeq), Bid), true)
    {
      ghost var st := SymOf(symbol);
      var b := LoadLevels(symbol, levels, snapSeq);
      assert Step(GridOf(symbol), st, LevelsSnapshot(levels, snapSeq), Bid)
          == Publish(SymOf(symbol), [], Tob(b.book, Bid), Tob(b.book, Ask));
      AnnounceBest(symbol, b);
    }

    /** A snapshot publishes the best prices and no levels. */
    method AnnounceBest(symbol: string, b: OrderBook)
      requires Valid() && symbol in books && books[symbol] == b
      modifies `pubSeq, `log
      ensures Valid() && pubSeq - {symbol} == old(pubSeq) - {symbol}
      ensures SymOf(symbol) == Publish(old(SymOf(symbol)), [], Tob(b.book, Bid), Tob(b.book, Ask)).sym
      ensures log == old(log)
        + LogEntry(symbol, Publish(old(SymOf(symbol)), [], Tob(b.book, Bid), Tob(b.book, Ask)).published)
    {
      assert Holds(symbol);
      var bid := TopOfBook(b, Bid);
      var ask := TopOfBook(b, Ask);
      MaybePublishDelta(symbol, [], bid, ask);
    }

    /** Call the snapshot requester, if there is one. */
    method RequestSnapshot(symbol: string)
      modifies `requests
      ensures requests == old(requests) + if canRequest then [symbol] else []
    {
      if canRequest {
        requests := requests + [symbol];
      }
    }

    method SetFeed(symbol: string, f: FeedState)
      requires Valid()
      modifies `feed
      ensures Valid() && OnlyTouches(symbol) && SymOf(symbol) == old(SymOf(symbol)).(feed := f)
    {
      assert symbol in books ==> Holds(symbol);
      feed := feed[symbol := f];
      StillValid(symbol);
    }

    method OnSeq(symbol: string, seqNo: nat) returns (ok: bool)
      requires Valid()
      modifies `feed, `requests
      ensures Did(symbol, Step(old(GridOf(symbol)), old(SymOf(symbol)), SeqCall(seqNo), Bid), ok)
    {
      var st := FeedOf(symbol);
      if st.stale {
        SetFeed(symbol, st);
        return false;
      }
      if st.lastSeq == 0 || seqNo == st.lastSeq + 1 {
        SetFeed(symbol, st.(lastSeq := seqNo));
        return true;
      }
      SetFeed(symbol, st.(stale := true));
      RequestSnapshot(symbol);
      return false;
    }

    method OnReset(symbol: string, epoch: nat)
      requires Valid()
      modifies `feed, `requests
      ensures Did(symbol, Step(old(GridOf(symbol)), old(SymOf(symbol)), ResetCall(epoch), Bid), true)
    {
      SetFeed(symbol, FeedState(0, epoch, true));
      RequestSnapshot(symbol);
    }

    /** The depth snapshot a subscriber seeds its mirror from. */
    method BuildSnapshot(symbol: string, depth: nat)
      returns (seqNo: nat, epoch: nat, bids: seq<(int, nat)>, asks: seq<(int, nat)>)
      requires Valid()
      ensures seqNo == SymOf(symbol).pubSeq && epoch == SymOf(symbol).feed.epoch
      ensures bids == P.TopLevels(SymOf(symbol).book, Bid, depth) && asks == P.TopLevels(SymOf(symbol).book, Ask, depth)
    {
      seqNo, epoch, bids, asks := SeqOf(symbol), FeedOf(symbol).epoch, [], [];
      if symbol in books {
        assert Holds(symbol);
        bids := books[symbol].ForEachLevel(Bid, depth);
        asks := books[symbol].ForEachLevel(Ask, depth);
      }
    }
  }
}
