/**
 * The ITCH adapter and the book it feeds. The adapter tracks live orders on
 * its own; these lemmas say after which messages its map and the books still
 * hold exactly the same orders. Messages arrive decoded; the vocabulary is the
 * add and modify order messages of Nasdaq TotalView-ITCH 5.0.
 */
module Itch {
  import opened Seqs
  import opened BookTypes
  import opened PlainBooks
  import opened BookRuns
  import opened ManagerSpec

  datatype OrderState = OrderState(symbol: string, remaining: nat, side: Side, price: real)

  datatype Adapter = Adapter(locates: map<int, string>, orders: map<nat, OrderState>)

  datatype Msg =
    | AddOrder(ref: nat, sideText: string, shares: nat, price: real, stock: Option<string>, locate: Option<int>)
    | OrderExecuted(ref: nat, shares: nat)
    | OrderCancel(ref: nat, shares: nat)
    | OrderDelete(ref: nat)
    | OrderReplace(orig: nat, ref: nat, shares: nat, price: real)
    | StockDirectory(locateId: int, name: string)
    | TradePrint(aggrText: Option<string>, shares: nat, price: real, stock: Option<string>, locate: Option<int>)
    | Ignored

  datatype FeedEvent =
    | ObAdd(symbol: string, id: nat, side: Side, px: real, size: nat)
    | ObResize(symbol: string, id: nat, size: nat)
    | ObDelete(symbol: string, id: nat)
    | ObTrade(symbol: string, px: real, size: nat, aggr: Aggressor)
    | ObTickSize(symbol: string, tick: real)

  // ---------- Translation ----------

  /** Without the spaces at its end. */
  function TrimRight(s: string): (r: string)
    ensures r <= s && (forall i :: |r| <= i < |s| ==> s[i] == ' ') && (r != [] ==> r[|r| - 1] != ' ')
  {
    if s != [] && s[|s| - 1] == ' ' then TrimRight(s[..|s| - 1]) else s
  }

  /** The named stock, else the one registered for the locate code. */
  function Resolve(ad: Adapter, stock: Option<string>, locate: Option<int>): Option<string> {
    if stock.Some? then Some(TrimRight(stock.value))
    else if locate.Some? && locate.value in ad.locates then Some(ad.locates[locate.value])
    else None
  }

  function SideOf(text: string): Side {
    if text != [] && text[0] == 'B' then Bid else Ask
  }

  function AggressorOf(passive: Side): Aggressor {
    if passive == Bid then Sell else Buy
  }

  /** The aggressor a trade message names, if it names one. */
  function AggressorNamed(text: Option<string>): Aggressor {
    if text.None? || text.value == [] then Unknown
    else if text.value[0] == 'B' then Buy
    else if text.value[0] == 'S' then Sell
    else Unknown
  }

  function Translate(ad: Adapter, m: Msg): (Adapter, seq<FeedEvent>) {
    match m
    case AddOrder(ref, text, shares, price, stock, locate) =>
      var s := Resolve(ad, stock, locate);
      if s.None? then (ad, []) else
      var side := SideOf(text);
      (ad.(orders := ad.orders[ref := OrderState(s.value, shares, side, price)]),
       [ObAdd(s.value, ref, side, price, shares)])
    case OrderExecuted(ref, shares) =>
      if ref !in ad.orders then (ad, []) else
      var os := ad.orders[ref];
      var trade := ObTrade(os.symbol, os.price, shares, AggressorOf(os.side));
      if shares >= os.remaining then (ad.(orders := ad.orders - {ref}), [ObDelete(os.symbol, ref), trade])
      else (ad.(orders := ad.orders[ref := os.(remaining := os.remaining - shares)]),
            [ObResize(os.symbol, ref, os.remaining - shares), trade])
    case OrderCancel(ref, shares) =>
      if ref !in ad.orders then (ad, []) else
      var os := ad.orders[ref];
      if shares >= os.remaining then (ad.(orders := ad.orders - {ref}), [ObDelete(os.symbol, ref)])
      else (ad.(orders := ad.orders[ref := os.(remaining := os.remaining - shares)]),
            [ObResize(os.symbol, ref, os.remaining - shares)])
    case OrderDelete(ref) =>
      if ref !in ad.orders then (ad, []) else
      (ad.(orders := ad.orders - {ref}), [ObDelete(ad.orders[ref].symbol, ref)])
    case OrderReplace(orig, ref, shares, price) =>
      if orig !in ad.orders then (ad, []) else
      var os := ad.orders[orig];
      (ad.(orders := (ad.orders - {orig})[ref := OrderState(os.symbol, shares, os.side, price)]),
       [ObDelete(os.symbol, orig), ObAdd(os.symbol, ref, os.side, price, shares)])
    case StockDirectory(id, name) =>
      (ad.(locates := ad.locates[id := TrimRight(name)]), [ObTickSize(TrimRight(name), 0.01)])
    case TradePrint(text, shares, price, stock, locate) =>
      var s := Resolve(ad, stock, locate);
      (ad, if s.None? then [] else [ObTrade(s.value, price, shares, AggressorNamed(text))])
    case Ignored => (ad, [])
  }

  // ---------- Dispatch into the manager ----------

  type Syms = map<string, Sym>

  function SymAt(syms: Syms, s: string): Sym {
    if s in syms then syms[s] else NEW_SYM
  }

  function KeyOf(ref: nat): OrderKey {
    OrderKey(ref, Scope(0, 0), false)
  }

  ghost predicate WellFormedSyms(syms: Syms) {
    forall s :: s in syms ==> WellFormed(syms[s].book)
  }

  /** Each symbol's tick size and sign rule. */
  type Grids = string -> Grid

  ghost predicate ValidGrids(grids: Grids) {
    forall s :: grids(s).tick > 0.0
  }

  function CallOf(e: FeedEvent): Call
    requires !e.ObTickSize?
  {
    match e
    case ObAdd(_, id, side, px, size) => AddCall(id, side, px, size, 0, Scope(0, 0), false)
    case ObResize(_, id, size) => UpdateCall(KeyOf(id), None, Some(size))
    case ObDelete(_, id) => DeleteCall(KeyOf(id))
    case ObTrade(_, px, size, aggr) => TradeCall(px, size, aggr)
  }

  /** `r` is the symbol after the call; the equation is there where `Unfold(0)` is asserted. */
  ghost predicate IsAfter(r: Sym, g: Grid, st: Sym, c: Call)
    requires g.tick > 0.0 && WellFormed(st.book)
  {
    forall n {:trigger Unfold(n)} :: Unfold(n) ==> r == Step(g, st, c, Bid).sym
  }

  ghost function After(g: Grid, st: Sym, c: Call): (r: Sym)
    requires g.tick > 0.0 && WellFormed(st.book)
    ensures IsAfter(r, g, st, c) && WellFormed(r.book) && r.feed == FeedAfter(st.feed, c)
  {
    assert IsAfter(Step(g, st, c, Bid).sym, g, st, c);
    var r :| IsAfter(r, g, st, c);
    assert Unfold(0);
    r
  }

  ghost function Dispatch(grids: Grids, syms: Syms, e: FeedEvent): (r: Syms)
    requires ValidGrids(grids) && WellFormedSyms(syms)
    ensures WellFormedSyms(r)
  {
    if e.ObTickSize? then syms
    else syms[e.symbol := After(grids(e.symbol), SymAt(syms, e.symbol), CallOf(e))]
  }

  ghost function DispatchAll(grids: Grids, syms: Syms, es: seq<FeedEvent>): (r: Syms)
    requires ValidGrids(grids) && WellFormedSyms(syms)
    ensures WellFormedSyms(r)
    decreases |es|
  {
    if es == [] then syms else DispatchAll(grids, Dispatch(grids, syms, es[0]), es[1..])
  }

  // ---------- Lock-step ----------

  function OrdersAt(syms: Syms, s: string): map<OrderKey, Order> {
    SymAt(syms, s).book.orders
  }

  /** The book of its symbol holds the tracked order with the same side, price and remaining size. */
  ghost predicate Tracked(grids: Grids, os: OrderState, ref: nat, syms: Syms)
    requires ValidGrids(grids)
  {
    && ref != 0 && os.remaining > 0 && ValidPrice(grids(os.symbol), os.price)
    && KeyOf(ref) in OrdersAt(syms, os.symbol)
    && var o := OrdersAt(syms, os.symbol)[KeyOf(ref)];
       o.side == os.side && o.price == ToTicks(grids(os.symbol), os.price) && o.size == os.remaining
  }

  ghost predicate Known(ad: Adapter, s: string, k: OrderKey) {
    k == KeyOf(k.id) && k.id in ad.orders && ad.orders[k.id].symbol == s
  }

  /** The adapter's map and the books hold exactly the same orders, and no book is stale. */
  ghost predicate LockStep(grids: Grids, ad: Adapter, syms: Syms)
    requires ValidGrids(grids)
  {
    && WellFormedSyms(syms) && (forall s :: !SymAt(syms, s).feed.stale)
    && (forall ref {:trigger Tracked(grids, ad.orders[ref], ref, syms)} ::
          ref in ad.orders ==> Tracked(grids, ad.orders[ref], ref, syms))
    && (forall s, k {:trigger Known(ad, s, k)} :: k in OrdersAt(syms, s) ==> Known(ad, s, k))
  }

  // ---------- What each dispatched event does to the orders of its symbol ----------

  lemma AddOrders(grids: Grids, syms: Syms, e: FeedEvent)
    requires ValidGrids(grids) && WellFormedSyms(syms) && e.ObAdd? && !SymAt(syms, e.symbol).feed.stale && e.id != 0
    ensures OrdersAt(Dispatch(grids, syms, e), e.symbol)
         == if ValidPrice(grids(e.symbol), e.px) && e.size > 0
            then OrdersAt(syms, e.symbol)[
              KeyOf(e.id) := Order(KeyOf(e.id), e.side, ToTicks(grids(e.symbol), e.px), e.size, 0)]
            else OrdersAt(syms, e.symbol)
  {
    assert Unfold(0);
    var b := SymAt(syms, e.symbol).book;
    var o := Order(KeyOf(e.id), e.side, ToTicks(grids(e.symbol), e.px), e.size, 0);
    assert Add(b, o).orders == b.orders[o.key := o];
  }

  lemma ResizeOrders(grids: Grids, syms: Syms, e: FeedEvent)
    requires ValidGrids(grids) && WellFormedSyms(syms) && e.ObResize? && !SymAt(syms, e.symbol).feed.stale && e.size > 0
    ensures var was := OrdersAt(syms, e.symbol);
      OrdersAt(Dispatch(grids, syms, e), e.symbol)
        == if KeyOf(e.id) in was then was[KeyOf(e.id) := was[KeyOf(e.id)].(size := e.size)] else was
  {
    assert Unfold(0);
  }

  lemma DeleteOrders(grids: Grids, syms: Syms, e: FeedEvent)
    requires ValidGrids(grids) && WellFormedSyms(syms) && e.ObDelete? && !SymAt(syms, e.symbol).feed.stale
    ensures OrdersAt(Dispatch(grids, syms, e), e.symbol) == OrdersAt(syms, e.symbol) - {KeyOf(e.id)}
  {
    assert Unfold(0);
    var b := SymAt(syms, e.symbol).book;
    assert Delete(b, KeyOf(e.id)).orders == b.orders - {KeyOf(e.id)};
  }

  /** Dispatch touches one symbol and never its feed state. */
  lemma DispatchFrame(grids: Grids, syms: Syms, e: FeedEvent, s: string)
    requires ValidGrids(grids) && WellFormedSyms(syms)
    ensures SymAt(Dispatch(grids, syms, e), s).feed == SymAt(syms, s).feed
    ensures e.ObTickSize? || s != e.symbol ==> OrdersAt(Dispatch(grids, syms, e), s) == OrdersAt(syms, s)
  {
  }

  // ---------- Lock-step through one event ----------

  function WithOrder(ad: Adapter, e: FeedEvent): Adapter
    requires e.ObAdd?
  {
    ad.(orders := ad.orders[e.id := OrderState(e.symbol, e.size, e.side, e.px)])
  }

  /** Non-zero reference, positive shares, valid price, and not live under another symbol. */
  predicate AddOk(grids: Grids, ad: Adapter, e: FeedEvent)
    requires e.ObAdd? && grids(e.symbol).tick > 0.0
  {
    && e.id != 0 && e.size > 0 && ValidPrice(grids(e.symbol), e.px)
    && (e.id in ad.orders ==> ad.orders[e.id].symbol == e.symbol)
  }

  /** Changing one reference alike on both sides keeps lock-step. */
  lemma EditKeeps(grids: Grids, ad: Adapter, syms: Syms, ad': Adapter, syms': Syms, sym: string, ref: nat)
    requires ValidGrids(grids) && LockStep(grids, ad, syms) && WellFormedSyms(syms')
    requires forall s :: SymAt(syms', s).feed == SymAt(syms, s).feed
    requires forall s :: s != sym ==> OrdersAt(syms', s) == OrdersAt(syms, s)
    requires OrdersAt(syms', sym) - {KeyOf(ref)} == OrdersAt(syms, sym) - {KeyOf(ref)}
    requires ad'.orders - {ref} == ad.orders - {ref} && (ref in ad.orders ==> ad.orders[ref].symbol == sym)
    requires ref in ad'.orders ==> ad'.orders[ref].symbol == sym && Tracked(grids, ad'.orders[ref], ref, syms')
    requires ref !in ad'.orders ==> KeyOf(ref) !in OrdersAt(syms', sym)
    ensures LockStep(grids, ad', syms')
  {
    forall r | r in ad'.orders ensures Tracked(grids, ad'.orders[r], r, syms') {
      if r != ref {
        assert r in ad'.orders - {ref};
        assert Tracked(grids, ad.orders[r], r, syms);
        assert KeyOf(r) in OrdersAt(syms, ad.orders[r].symbol) - {KeyOf(ref)};
      }
    }
    forall s, k | k in OrdersAt(syms', s) ensures Known(ad', s, k) {
      if k != KeyOf(ref) {
        if s == sym { assert k in OrdersAt(syms', s) - {KeyOf(ref)}; }
        assert Known(ad, s, k);
        assert k.id in ad.orders - {ref};
      } else if s != sym {
        assert Known(ad, s, k);
      }
    }
  }

  lemma DispatchFrames(grids: Grids, syms: Syms, e: FeedEvent)
    requires ValidGrids(grids) && WellFormedSyms(syms) && !e.ObTickSize?
    ensures forall s :: SymAt(Dispatch(grids, syms, e), s).feed == SymAt(syms, s).feed
    ensures forall s :: s != e.symbol ==> OrdersAt(Dispatch(grids, syms, e), s) == OrdersAt(syms, s)
  {
    forall s ensures SymAt(Dispatch(grids, syms, e), s).feed == SymAt(syms, s).feed
      && (s != e.symbol ==> OrdersAt(Dispatch(grids, syms, e), s) == OrdersAt(syms, s))
    {
      DispatchFrame(grids, syms, e, s);
    }
  }

  lemma AddEventKeeps(grids: Grids, ad: Adapter, syms: Syms, e: FeedEvent)
    requires ValidGrids(grids) && LockStep(grids, ad, syms) && e.ObAdd? && AddOk(grids, ad, e)
    ensures LockStep(grids, WithOrder(ad, e), Dispatch(grids, syms, e))
  {
    AddOrders(grids, syms, e);
    DispatchFrames(grids, syms, e);
    EditKeeps(grids, ad, syms, WithOrder(ad, e), Dispatch(grids, syms, e), e.symbol, e.id);
  }

  lemma AddEventIff(grids: Grids, ad: Adapter, syms: Syms, e: FeedEvent)
    requires ValidGrids(grids) && LockStep(grids, ad, syms) && e.ObAdd?
    ensures LockStep(grids, WithOrder(ad, e), Dispatch(grids, syms, e)) <==> AddOk(grids, ad, e)
  {
    var ad', syms' := WithOrder(ad, e), Dispatch(grids, syms, e);
    if AddOk(grids, ad, e) {
      AddEventKeeps(grids, ad, syms, e);
    } else if e.id in ad.orders && ad.orders[e.id].symbol != e.symbol {
      var other := ad.orders[e.id].symbol;
      DispatchFrame(grids, syms, e, other);
      assert Tracked(grids, ad.orders[e.id], e.id, syms);
      assert KeyOf(e.id) in OrdersAt(syms', other) && !Known(ad', other, KeyOf(e.id));
    } else {
      assert !Tracked(grids, ad'.orders[e.id], e.id, syms');
    }
  }

  lemma DeleteEventKeeps(grids: Grids, ad: Adapter, syms: Syms, ref: nat)
    requires ValidGrids(grids) && LockStep(grids, ad, syms) && ref in ad.orders
    ensures LockStep(grids, ad.(orders := ad.orders - {ref}),
                     Dispatch(grids, syms, ObDelete(ad.orders[ref].symbol, ref)))
  {
    var e := ObDelete(ad.orders[ref].symbol, ref);
    DeleteOrders(grids, syms, e);
    DispatchFrames(grids, syms, e);
    EditKeeps(grids, ad, syms, ad.(orders := ad.orders - {ref}), Dispatch(grids, syms, e), e.symbol, ref);
  }

  lemma ResizeEventKeeps(grids: Grids, ad: Adapter, syms: Syms, ref: nat, size: nat)
    requires ValidGrids(grids) && LockStep(grids, ad, syms) && ref in ad.orders && size > 0
    ensures LockStep(grids, ad.(orders := ad.orders[ref := ad.orders[ref].(remaining := size)]),
                     Dispatch(grids, syms, ObResize(ad.orders[ref].symbol, ref, size)))
  {
    var e := ObResize(ad.orders[ref].symbol, ref, size);
    var ad' := ad.(orders := ad.orders[ref := ad.orders[ref].(remaining := size)]);
    assert Tracked(grids, ad.orders[ref], ref, syms);
    ResizeOrders(grids, syms, e);
    DispatchFrames(grids, syms, e);
    EditKeeps(grids, ad, syms, ad', Dispatch(grids, syms, e), e.symbol, ref);
  }

  // ---------- Lock-step through one message ----------

  /** The adapter, the books and the tick sizes. */
  datatype World = World(ad: Adapter, syms: Syms, grids: Grids)

  ghost predicate Sound(w: World) {
    ValidGrids(w.grids) && WellFormedSyms(w.syms)
  }

  ghost predicate InStep(w: World) {
    Sound(w) && LockStep(w.grids, w.ad, w.syms)
  }

  /** Setting a tick size; one that is not positive falls back to the default. */
  function Reticked(grids: Grids, s: string, tick: real): Grids {
    x => if x == s then grids(x).(tick := if tick > 0.0 then tick else DEFAULT_TICK) else grids(x)
  }

  function GridsAfter(grids: Grids, es: seq<FeedEvent>): Grids
    decreases es
  {
    if es == [] then grids
    else GridsAfter(if es[0].ObTickSize? then Reticked(grids, es[0].symbol, es[0].tick) else grids, es[1..])
  }

  lemma {:induction false} GridsSame(grids: Grids, es: seq<FeedEvent>)
    requires forall i :: 0 <= i < |es| ==> !es[i].ObTickSize?
    ensures GridsAfter(grids, es) == grids
  {
    if es != [] { GridsSame(grids, es[1..]); }
  }

  lemma {:induction false} GridsStayValid(grids: Grids, es: seq<FeedEvent>)
    requires ValidGrids(grids)
    ensures ValidGrids(GridsAfter(grids, es))
    decreases es
  {
    if es != [] {
      GridsStayValid(if es[0].ObTickSize? then Reticked(grids, es[0].symbol, es[0].tick) else grids, es[1..]);
    }
  }

  ghost function Receive(w: World, m: Msg): (r: World)
    requires Sound(w)
    ensures Sound(r) && (!m.StockDirectory? ==> r.grids == w.grids)
  {
    var (ad, es) := Translate(w.ad, m);
    assert !m.StockDirectory? ==> GridsAfter(w.grids, es) == w.grids by {
      if !m.StockDirectory? { GridsSame(w.grids, es); }
    }
    GridsStayValid(w.grids, es);
    World(ad, DispatchAll(w.grids, w.syms, es), GridsAfter(w.grids, es))
  }

  /** When a message keeps the adapter and the books in lock-step. */
  ghost predicate Admissible(w: World, m: Msg)
    requires Sound(w)
  {
    match m
    case AddOrder(ref, text, shares, price, stock, locate) =>
      var s := Resolve(w.ad, stock, locate);
      s.None? || AddOk(w.grids, w.ad, ObAdd(s.value, ref, SideOf(text), price, shares))
    case OrderReplace(orig, ref, shares, price) =>
      orig in w.ad.orders ==>
        var os := w.ad.orders[orig];
        AddOk(w.grids, w.ad.(orders := w.ad.orders - {orig}), ObAdd(os.symbol, ref, os.side, price, shares))
    case OrderExecuted(ref, shares) =>
      ref in w.ad.orders && shares > 0 ==>
        var os := w.ad.orders[ref];
        && shares >= os.remaining
        && QueueAt(SymAt(w.syms, os.symbol).book, Spot(os.side, ToTicks(w.grids(os.symbol), os.price))) == [KeyOf(ref)]
    case StockDirectory(_, name) =>
      var s := TrimRight(name);
      forall ref {:trigger SameTicks(w, ref, s)} :: ref in w.ad.orders ==> SameTicks(w, ref, s)
    case TradePrint(text, shares, price, stock, locate) =>
      var s := Resolve(w.ad, stock, locate);
      s.None? || !Takes(w.grids, w.syms, ObTrade(s.value, price, shares, AggressorNamed(text)))
    case _ => true
  }

  /** A print with a valid price and size finds a passive side with a level at its price. */
  ghost predicate Takes(grids: Grids, syms: Syms, e: FeedEvent)
    requires ValidGrids(grids) && e.ObTrade?
  {
    var b, p := SymAt(syms, e.symbol).book, ToTicks(grids(e.symbol), e.px);
    var side := PassiveSide(b, p, e.aggr);
    ValidPrice(grids(e.symbol), e.px) && e.size > 0 && side.Some? && Spot(side.value, p) in b.queues
  }

  /** A live order of the symbol whose tick size becomes 0.01 is valid there and on the same tick as before. */
  predicate SameTicks(w: World, ref: nat, name: string)
    requires ref in w.ad.orders && w.grids(name).tick > 0.0
  {
    var os := w.ad.orders[ref];
    os.symbol == name ==>
      && ValidPrice(w.grids(name).(tick := 0.01), os.price)
      && ToTicks(w.grids(name).(tick := 0.01), os.price) == ToTicks(w.grids(name), os.price)
  }

  lemma DispatchOne(grids: Grids, syms: Syms, e: FeedEvent)
    requires ValidGrids(grids) && WellFormedSyms(syms)
    ensures DispatchAll(grids, syms, [e]) == Dispatch(grids, syms, e)
  {
    assert [e][1..] == [];
  }

  lemma DispatchTwo(grids: Grids, syms: Syms, a: FeedEvent, b: FeedEvent)
    requires ValidGrids(grids) && WellFormedSyms(syms)
    ensures DispatchAll(grids, syms, [a, b]) == Dispatch(grids, Dispatch(grids, syms, a), b)
  {
    assert [a, b][1..] == [b];
    var mid := Dispatch(grids, syms, a);
    DispatchOne(grids, mid, b);
  }

  /** Cancels, deletes and adds: lock-step survives exactly the admissible ones. */
  lemma SingleEventIff(w: World, m: Msg)
    requires InStep(w)
    requires m.AddOrder? || m.OrderCancel? || m.OrderDelete? || m.TradePrint? || m.Ignored?
    ensures InStep(Receive(w, m)) <==> Admissible(w, m)
  {
    var es := Translate(w.ad, m).1;
    if es != [] {
      DispatchOne(w.grids, w.syms, es[0]);
      assert es == [es[0]];
    }
    match m
    case AddOrder(_, _, _, _, _, _) =>
      if es != [] { AddEventIff(w.grids, w.ad, w.syms, es[0]); }
    case OrderCancel(ref, shares) =>
      if ref in w.ad.orders {
        if shares >= w.ad.orders[ref].remaining {
          DeleteEventKeeps(w.grids, w.ad, w.syms, ref);
        } else {
          ResizeEventKeeps(w.grids, w.ad, w.syms, ref, w.ad.orders[ref].remaining - shares);
        }
      }
    case OrderDelete(ref) =>
      if ref in w.ad.orders { DeleteEventKeeps(w.grids, w.ad, w.syms, ref); }
    case TradePrint(_, _, _, _, _) =>
      if es != [] { TradeEventIff(w.grids, w.ad, w.syms, es[0]); }
    case Ignored =>
  }

  lemma ReplaceIff(w: World, m: Msg)
    requires InStep(w) && m.OrderReplace?
    ensures InStep(Receive(w, m)) <==> Admissible(w, m)
  {
    if m.orig in w.ad.orders {
      var es := Translate(w.ad, m).1;
      DispatchTwo(w.grids, w.syms, es[0], es[1]);
      assert es == [es[0], es[1]];
      DeleteEventKeeps(w.grids, w.ad, w.syms, m.orig);
      AddEventIff(w.grids, w.ad.(orders := w.ad.orders - {m.orig}), Dispatch(w.grids, w.syms, es[0]), es[1]);
    }
  }

  // ---------- Executions consume the level a second time ----------

  /** A fill of positive size changes the order at the front of the level. */
  lemma ConsumeHitsFront(b: PlainBook, s: Spot, qty: nat) returns (k: OrderKey)
    requires WellFormed(b) && qty != 0 && s in b.queues
    ensures k in b.orders
    ensures k in Consume(b, s, qty).orders ==> Consume(b, s, qty).orders[k].size != b.orders[k].size
  {
    k := ConsumeTurn(b, s, qty);
    if b.orders[k].size <= qty {
      var rest: nat := qty - b.orders[k].size;
      ConsumeOnlyRemoves(Remove(b, k), s, rest, k);
    }
  }

  lemma TradeBook(grids: Grids, syms: Syms, e: FeedEvent)
    requires ValidGrids(grids) && WellFormedSyms(syms) && e.ObTrade? && !SymAt(syms, e.symbol).feed.stale
    ensures var b, g := SymAt(syms, e.symbol).book, grids(e.symbol);
      SymAt(Dispatch(grids, syms, e), e.symbol).book
        == if ValidPrice(g, e.px) && e.size > 0 then Trade(b, ToTicks(g, e.px), e.size, e.aggr) else b
  {
    assert Unfold(0);
  }

  /** A print keeps lock-step exactly when it takes nothing. */
  lemma TradeEventIff(grids: Grids, ad: Adapter, syms: Syms, e: FeedEvent)
    requires ValidGrids(grids) && LockStep(grids, ad, syms) && e.ObTrade?
    ensures LockStep(grids, ad, Dispatch(grids, syms, e)) <==> !Takes(grids, syms, e)
  {
    var syms' := Dispatch(grids, syms, e);
    TradeBook(grids, syms, e);
    DispatchFrames(grids, syms, e);
    if !Takes(grids, syms, e) {
      SameBooks(grids, ad, syms, syms');
    } else {
      var b, p := SymAt(syms, e.symbol).book, ToTicks(grids(e.symbol), e.px);
      var k := ConsumeHitsFront(b, Spot(PassiveSide(b, p, e.aggr).value, p), e.size);
      assert Known(ad, e.symbol, k);
      assert Tracked(grids, ad.orders[k.id], k.id, syms);
      assert !Tracked(grids, ad.orders[k.id], k.id, syms');
    }
  }

  lemma SameBooks(grids: Grids, ad: Adapter, syms: Syms, syms': Syms)
    requires ValidGrids(grids) && LockStep(grids, ad, syms) && WellFormedSyms(syms')
    requires forall s :: OrdersAt(syms', s) == OrdersAt(syms, s) && SymAt(syms', s).feed == SymAt(syms, s).feed
    ensures LockStep(grids, ad, syms')
  {
    forall r | r in ad.orders ensures Tracked(grids, ad.orders[r], r, syms') {
      assert Tracked(grids, ad.orders[r], r, syms);
    }
    forall s, k | k in OrdersAt(syms', s) ensures Known(ad, s, k) {
      assert k in OrdersAt(syms, s);
    }
  }

  lemma DeleteBook(grids: Grids, syms: Syms, e: FeedEvent)
    requires ValidGrids(grids) && WellFormedSyms(syms) && e.ObDelete? && !SymAt(syms, e.symbol).feed.stale
    ensures SymAt(Dispatch(grids, syms, e), e.symbol).book == Delete(SymAt(syms, e.symbol).book, KeyOf(e.id))
  {
    assert Unfold(0);
  }

  /** The last fill of an order: its own print takes from whatever is left at the price. */
  lemma FullFillIff(w: World, m: Msg)
    requires InStep(w) && m.OrderExecuted? && m.ref in w.ad.orders && m.shares >= w.ad.orders[m.ref].remaining
    ensures InStep(Receive(w, m)) <==> Admissible(w, m)
  {
    var os := w.ad.orders[m.ref];
    assert Tracked(w.grids, os, m.ref, w.syms);
    var (ad, es) := Translate(w.ad, m);
    DispatchTwo(w.grids, w.syms, es[0], es[1]);
    assert es == [es[0], es[1]];
    DeleteEventKeeps(w.grids, w.ad, w.syms, m.ref);
    TradeEventIff(w.grids, ad, Dispatch(w.grids, w.syms, es[0]), es[1]);
    DeleteBook(w.grids, w.syms, es[0]);
    LastAtLevel(SymAt(w.syms, os.symbol).book, KeyOf(m.ref));
  }

  /** A partial fill leaves the order at its price, so its own print takes from the level again. */
  lemma PartialFillIff(w: World, m: Msg)
    requires InStep(w) && m.OrderExecuted? && m.ref in w.ad.orders && m.shares < w.ad.orders[m.ref].remaining
    ensures InStep(Receive(w, m)) <==> m.shares == 0
  {
    var os := w.ad.orders[m.ref];
    assert Tracked(w.grids, os, m.ref, w.syms);
    var (ad, es) := Translate(w.ad, m);
    var mid := Dispatch(w.grids, w.syms, es[0]);
    DispatchTwo(w.grids, w.syms, es[0], es[1]);
    assert es == [es[0], es[1]];
    ResizeEventKeeps(w.grids, w.ad, w.syms, m.ref, os.remaining - m.shares);
    TradeEventIff(w.grids, ad, mid, es[1]);
    assert Tracked(w.grids, ad.orders[m.ref], m.ref, mid);
    assert OrderOk(SymAt(mid, os.symbol).book, KeyOf(m.ref));
  }

  /** An execution keeps lock-step exactly when it is empty, untracked, or uses up an order alone at its price. */
  lemma ExecutedIff(w: World, m: Msg)
    requires InStep(w) && m.OrderExecuted?
    ensures InStep(Receive(w, m)) <==> Admissible(w, m)
  {
    if m.ref in w.ad.orders {
      if m.shares >= w.ad.orders[m.ref].remaining { FullFillIff(w, m); } else { PartialFillIff(w, m); }
    }
  }

  lemma LastAtLevel(b: PlainBook, k: OrderKey)
    requires WellFormed(b) && k in b.orders
    ensures SpotOf(b.orders[k]) !in Delete(b, k).queues <==> QueueAt(b, SpotOf(b.orders[k])) == [k]
  {
    assert OrderOk(b, k);
    assert QueueOk(b, SpotOf(b.orders[k]));
  }

  // ---------- A directory message changes the tick size ----------

  /** A directory message keeps lock-step exactly when every live order of its symbol stays on its tick. */
  lemma DirectoryIff(w: World, m: Msg)
    requires InStep(w) && m.StockDirectory?
    ensures InStep(Receive(w, m)) <==> Admissible(w, m)
  {
    var r, name := Receive(w, m), TrimRight(m.name);
    var es := Translate(w.ad, m).1;
    DispatchOne(w.grids, w.syms, es[0]);
    assert es == [es[0]] && es[1..] == [];
    assert GridsAfter(w.grids, es) == Reticked(w.grids, name, 0.01);
    forall ref | ref in w.ad.orders
      ensures Tracked(r.grids, r.ad.orders[ref], ref, r.syms) <==> SameTicks(w, ref, name)
    {
      assert Tracked(w.grids, w.ad.orders[ref], ref, w.syms);
    }
    forall s, k | k in OrdersAt(r.syms, s) ensures Known(r.ad, s, k) {
      assert Known(w.ad, s, k);
    }
    if InStep(r) {
      forall ref | ref in w.ad.orders ensures SameTicks(w, ref, name) {
        assert Tracked(r.grids, r.ad.orders[ref], ref, r.syms);
      }
    }
  }

  /** In particular when the tick size was 0.01 already, or nothing of the symbol is live. */
  lemma DirectoryKeepsTick(w: World, m: Msg)
    requires InStep(w) && m.StockDirectory?
    requires w.grids(TrimRight(m.name)).tick == 0.01
      || forall ref :: ref in w.ad.orders ==> w.ad.orders[ref].symbol != TrimRight(m.name)
    ensures Admissible(w, m)
  {
    forall ref | ref in w.ad.orders ensures SameTicks(w, ref, TrimRight(m.name)) {
      assert Tracked(w.grids, w.ad.orders[ref], ref, w.syms);
    }
  }

  // ---------- Whole streams ----------

  ghost function Feed(w: World, ms: seq<Msg>): (r: World)
    requires Sound(w)
    ensures Sound(r)
  {
    if ms == [] then w else Receive(Feed(w, ms[..|ms| - 1]), ms[|ms| - 1])
  }

  /** Any message at all. */
  lemma ReceiveIff(w: World, m: Msg)
    requires InStep(w)
    ensures InStep(Receive(w, m)) <==> Admissible(w, m)
  {
    if m.OrderReplace? {
      ReplaceIff(w, m);
    } else if m.OrderExecuted? {
      ExecutedIff(w, m);
    } else if m.StockDirectory? {
      DirectoryIff(w, m);
    } else {
      SingleEventIff(w, m);
    }
  }

  ghost predicate InStepAt(w: World, ms: seq<Msg>, n: nat)
    requires Sound(w) && n <= |ms|
  {
    InStep(Feed(w, ms[..n]))
  }

  ghost predicate AdmissibleAt(w: World, ms: seq<Msg>, n: nat)
    requires Sound(w) && n < |ms|
  {
    Admissible(Feed(w, ms[..n]), ms[n])
  }

  lemma NextInStep(w: World, ms: seq<Msg>, n: nat, m: nat)
    requires Sound(w) && n < |ms| && m == n + 1 && InStepAt(w, ms, n)
    ensures InStepAt(w, ms, m) <==> AdmissibleAt(w, ms, n)
  {
    assert ms[..m][..n] == ms[..n];
    ReceiveIff(Feed(w, ms[..n]), ms[n]);
  }

  lemma {:induction false} AdmissibleStaysInStep(w: World, ms: seq<Msg>, n: nat)
    requires InStep(w) && n <= |ms|
    requires forall i :: 0 <= i < |ms| ==> AdmissibleAt(w, ms, i)
    ensures InStepAt(w, ms, n)
  {
    if n == 0 {
      assert ms[..0] == [];
    } else {
      AdmissibleStaysInStep(w, ms, n - 1);
      NextInStep(w, ms, n - 1, n);
    }
  }

  /** Adapter and books are in lock-step after every message exactly when every message was admissible. */
  lemma StreamInLockStep(w: World, ms: seq<Msg>)
    requires InStep(w)
    ensures (forall n :: 0 <= n <= |ms| ==> InStepAt(w, ms, n))
       <==> (forall n :: 0 <= n < |ms| ==> AdmissibleAt(w, ms, n))
  {
    if forall n :: 0 <= n <= |ms| ==> InStepAt(w, ms, n) {
      forall n | 0 <= n < |ms| ensures AdmissibleAt(w, ms, n) {
        assert InStepAt(w, ms, n + 1);
        NextInStep(w, ms, n, n + 1);
      }
    } else if forall n :: 0 <= n < |ms| ==> AdmissibleAt(w, ms, n) {
      forall n | 0 <= n <= |ms| ensures InStepAt(w, ms, n) {
        AdmissibleStaysInStep(w, ms, n);
      }
    }
  }

  /** An adapter and a manager that have seen nothing are in lock-step. */
  lemma FreshWorldInStep(grids: Grids, locates: map<int, string>)
    requires ValidGrids(grids)
    ensures InStep(World(Adapter(locates, map[]), map[], grids))
  {
  }

  /** A partial fill breaks lock-step: add 10, execute 4. */
  lemma PartialFillExample()
    ensures var w := World(Adapter(map[], map[]), map[], s => Grid(1.0, false));
      var ms := [AddOrder(1, "B", 10, 1.0, Some("X"), None), OrderExecuted(1, 4)];
      Sound(w) && InStepAt(w, ms, 1) && !InStepAt(w, ms, 2)
  {
    var grids: Grids := s => Grid(1.0, false);
    var w := World(Adapter(map[], map[]), map[], grids);
    var ms := [AddOrder(1, "B", 10, 1.0, Some("X"), None), OrderExecuted(1, 4)];
    FreshWorldInStep(grids, map[]);
    assert ms[..0] == [] && ms[..1][..0] == [];
    assert ms[..1] == [ms[0]];
    assert "X"[|"X"| - 1] == 'X';
    TicksRoundTrip(Grid(1.0, false), 1);
    NextInStep(w, ms, 0, 1);
    NextInStep(w, ms, 1, 2);
  }

  /** An order added under the default tick size is on another tick once the directory names its symbol. */
  lemma LateDirectoryExample()
    ensures var w := World(Adapter(map[], map[]), map[], s => Grid(DEFAULT_TICK, false));
      var ms := [AddOrder(1, "B", 10, 1.0, Some("X"), None), StockDirectory(7, "X")];
      Sound(w) && InStepAt(w, ms, 1) && !InStepAt(w, ms, 2)
  {
    var grids: Grids := s => Grid(DEFAULT_TICK, false);
    var w := World(Adapter(map[], map[]), map[], grids);
    var ms := [AddOrder(1, "B", 10, 1.0, Some("X"), None), StockDirectory(7, "X")];
    FreshWorldInStep(grids, map[]);
    assert ms[..0] == [] && ms[..1][..0] == [];
    assert ms[..1] == [ms[0]];
    assert TrimRight("X") == "X" by { assert "X"[|"X"| - 1] == 'X'; }
    TicksRoundTrip(Grid(DEFAULT_TICK, false), 10000);
    TicksRoundTrip(Grid(0.01, false), 100);
    NextInStep(w, ms, 0, 1);
    NextInStep(w, ms, 1, 2);
    var r := Feed(w, ms[..1]);
    assert 1 in r.ad.orders && !SameTicks(r, 1, "X");
  }
}
