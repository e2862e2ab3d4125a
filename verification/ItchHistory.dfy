/**
 * Which orders a list of messages leaves tracked, and with what, read off the
 * list alone: the last message that brought an order in, and what was taken
 * off it since. The adapter keeps exactly that and says so in its events.
 */
module ItchHistory {
  import opened Seqs
  import opened BookTypes
  import opened Itch

  // ---------- Reading a list of messages ----------

  /** The name last registered for a locate code. */
  function NameFrom(ms: seq<Msg>, locate: int): Option<string> {
    if ms == [] then None else
    var n := |ms| - 1;
    if ms[n].StockDirectory? && ms[n].locateId == locate then Some(TrimRight(ms[n].name)) else NameFrom(ms[..n], locate)
  }

  /** The stock a message names, else the one its locate code was registered for. */
  function Named(ms: seq<Msg>, stock: Option<string>, locate: Option<int>): Option<string> {
    if stock.Some? then Some(TrimRight(stock.value)) else if locate.Some? then NameFrom(ms, locate.value) else None
  }

  /** What message `m`, coming after `pre`, brings in under `ref`. */
  function Comes(pre: seq<Msg>, m: Msg, ref: nat): Option<OrderState>
    decreases |pre|, 3
  {
    if m.AddOrder? && m.ref == ref then
      var s := Named(pre, m.stock, m.locate);
      if s.None? then None
      else Some(OrderState(s.value, m.shares, if "B" <= m.sideText then Bid else Ask, m.price))
    else if m.OrderReplace? && m.ref == ref then
      var os := Held(pre, m.orig);
      if os.None? then None else Some(OrderState(os.value.symbol, m.shares, os.value.side, m.price))
    else None
  }

  /** The position of the last message that brought something in under `ref`. */
  function LastIn(ms: seq<Msg>, ref: nat): (i: Option<nat>)
    ensures i.Some? ==> i.value < |ms| && Comes(ms[..i.value], ms[i.value], ref).Some?
    decreases |ms|, 1
  {
    if ms == [] then None else
    var n := |ms| - 1;
    if Comes(ms[..n], ms[n], ref).Some? then Some(n)
    else
      var i := LastIn(ms[..n], ref);
      assert i.Some? ==> ms[..n][..i.value] == ms[..i.value];
      i
  }

  /** Does this message take shares off `ref`? */
  predicate Takes(m: Msg, ref: nat) {
    (m.OrderCancel? || m.OrderExecuted?) && m.ref == ref
  }

  /** The shares cancelled and executed on `ref`. */
  function Taken(ms: seq<Msg>, ref: nat): nat {
    if ms == [] then 0 else
    var n := |ms| - 1;
    Taken(ms[..n], ref) + if Takes(ms[n], ref) then ms[n].shares else 0
  }

  predicate Removes(m: Msg, ref: nat) {
    (m.OrderDelete? && m.ref == ref) || (m.OrderReplace? && m.orig == ref)
  }

  predicate AnyRemoves(ms: seq<Msg>, ref: nat) {
    exists i :: 0 <= i < |ms| && Removes(ms[i], ref)
  }

  predicate AnyTakes(ms: seq<Msg>, ref: nat) {
    exists i :: 0 <= i < |ms| && Takes(ms[i], ref)
  }

  /** An order of so many shares does not outlast these messages: it is removed, or they take all its shares. */
  predicate Ends(since: seq<Msg>, ref: nat, shares: nat) {
    AnyRemoves(since, ref) || (AnyTakes(since, ref) && Taken(since, ref) >= shares)
  }

  /** What is left of an order after these messages. */
  function LeftOf(os: OrderState, since: seq<Msg>, ref: nat): Option<OrderState> {
    if Ends(since, ref, os.remaining) then None
    else
      NoTakesTakesNothing(since, ref);
      Some(os.(remaining := os.remaining - Taken(since, ref)))
  }

  /** What a list of messages leaves tracked under `ref`: the last order brought in, less what was taken since. */
  function Held(ms: seq<Msg>, ref: nat): Option<OrderState>
    decreases |ms|, 2
  {
    var i := LastIn(ms, ref);
    if i.None? then None else LeftOf(Comes(ms[..i.value], ms[i.value], ref).value, ms[i.value + 1..], ref)
  }

  lemma {:induction false} NoTakesTakesNothing(since: seq<Msg>, ref: nat)
    ensures !AnyTakes(since, ref) ==> Taken(since, ref) == 0
  {
    if since != [] {
      var n := |since| - 1;
      NoTakesTakesNothing(since[..n], ref);
      AnyPush(since[..n], since[n], ref);
      assert since[..n] + [since[n]] == since;
    }
  }

  // ---------- One more message ----------

  lemma AnyPush(since: seq<Msg>, m: Msg, ref: nat)
    ensures AnyRemoves(since + [m], ref) <==> AnyRemoves(since, ref) || Removes(m, ref)
    ensures AnyTakes(since + [m], ref) <==> AnyTakes(since, ref) || Takes(m, ref)
  {
    var more := since + [m];
    assert more[|since|] == m;
    if i :| 0 <= i < |since| && Removes(since[i], ref) { assert Removes(more[i], ref); }
    if i :| 0 <= i < |since| && Takes(since[i], ref) { assert Takes(more[i], ref); }
  }

  lemma TakenPush(since: seq<Msg>, m: Msg, ref: nat)
    ensures Taken(since + [m], ref) == Taken(since, ref) + if Takes(m, ref) then m.shares else 0
  {
    assert (since + [m])[..|since|] == since;
  }

  /** What one message leaves of what is tracked. */
  function Left(was: Option<OrderState>, m: Msg, ref: nat): Option<OrderState> {
    if was.None? || Removes(m, ref) then None
    else if !Takes(m, ref) then was
    else if m.shares >= was.value.remaining then None
    else Some(was.value.(remaining := was.value.remaining - m.shares))
  }

  lemma LeftPush(os: OrderState, since: seq<Msg>, m: Msg, ref: nat)
    ensures LeftOf(os, since + [m], ref) == Left(LeftOf(os, since, ref), m, ref)
  {
    AnyPush(since, m, ref);
    TakenPush(since, m, ref);
    NoTakesTakesNothing(since, ref);
  }

  lemma LastInPush(ms: seq<Msg>, m: Msg, ref: nat)
    ensures LastIn(ms + [m], ref) == if Comes(ms, m, ref).Some? then Some(|ms|) else LastIn(ms, ref)
  {
    assert (ms + [m])[..|ms|] == ms;
  }

  /** What one more message leaves tracked, from what was tracked before it. */
  lemma HeldPush(ms: seq<Msg>, m: Msg, ref: nat)
    ensures Held(ms + [m], ref) == if Comes(ms, m, ref).Some? then Comes(ms, m, ref) else Left(Held(ms, ref), m, ref)
  {
    var all, i := ms + [m], LastIn(ms, ref);
    LastInPush(ms, m, ref);
    if Comes(ms, m, ref).Some? {
      assert all[..|ms|] == ms && all[|ms|] == m && all[|ms| + 1..] == [];
    } else if i.Some? {
      assert all[..i.value] == ms[..i.value] && all[i.value + 1..] == ms[i.value + 1..] + [m];
      LeftPush(Comes(ms[..i.value], ms[i.value], ref).value, ms[i.value + 1..], m, ref);
    }
  }

  lemma NamePush(ms: seq<Msg>, m: Msg, locate: int)
    ensures NameFrom(ms + [m], locate)
         == if m.StockDirectory? && m.locateId == locate then Some(TrimRight(m.name)) else NameFrom(ms, locate)
  {
    assert (ms + [m])[..|ms|] == ms;
  }

  // ---------- The adapter keeps what the messages leave ----------

  function TrackedBy(ad: Adapter, ref: nat): Option<OrderState> {
    if ref in ad.orders then Some(ad.orders[ref]) else None
  }

  function NamedBy(ad: Adapter, l: int): Option<string> {
    if l in ad.locates then Some(ad.locates[l]) else None
  }

  /** An adapter that tracks and names exactly what the list of messages leaves. */
  ghost predicate Keeps(ad: Adapter, ms: seq<Msg>) {
    && (forall ref: nat :: TrackedBy(ad, ref) == Held(ms, ref))
    && (forall l :: NamedBy(ad, l) == NameFrom(ms, l))
  }

  lemma ResolveNamed(ad: Adapter, ms: seq<Msg>, stock: Option<string>, locate: Option<int>)
    requires Keeps(ad, ms)
    ensures Resolve(ad, stock, locate) == Named(ms, stock, locate)
  {
    if locate.Some? { assert NamedBy(ad, locate.value) == NameFrom(ms, locate.value); }
  }

  /** What the adapter tracks under `ref` after one message. */
  lemma TranslateTracks(ad: Adapter, ms: seq<Msg>, m: Msg, ref: nat)
    requires Keeps(ad, ms)
    ensures TrackedBy(Translate(ad, m).0, ref)
         == if Comes(ms, m, ref).Some? then Comes(ms, m, ref) else Left(TrackedBy(ad, ref), m, ref)
  {
    match m
    case AddOrder(_, _, _, _, stock, locate) => ResolveNamed(ad, ms, stock, locate);
    case OrderReplace(orig, _, _, _) => ReplaceTracks(ad, ms, m, ref);
    case _ =>
  }

  lemma ReplaceTracks(ad: Adapter, ms: seq<Msg>, m: Msg, ref: nat)
    requires Keeps(ad, ms) && m.OrderReplace?
    ensures TrackedBy(Translate(ad, m).0, ref)
         == if Comes(ms, m, ref).Some? then Comes(ms, m, ref) else Left(TrackedBy(ad, ref), m, ref)
  {
    assert TrackedBy(ad, m.orig) == Held(ms, m.orig);
  }

  lemma TranslateKeeps(ad: Adapter, ms: seq<Msg>, m: Msg)
    requires Keeps(ad, ms)
    ensures Keeps(Translate(ad, m).0, ms + [m])
  {
    var r := Translate(ad, m).0;
    forall ref: nat ensures TrackedBy(r, ref) == Held(ms + [m], ref) {
      HeldPush(ms, m, ref);
      TranslateTracks(ad, ms, m, ref);
      assert TrackedBy(ad, ref) == Held(ms, ref);
    }
    forall l ensures NamedBy(r, l) == NameFrom(ms + [m], l) {
      NamePush(ms, m, l);
      assert NamedBy(ad, l) == NameFrom(ms, l);
    }
  }

  /** The adapter after a list of messages. */
  function After(ms: seq<Msg>): Adapter {
    if ms == [] then Adapter(map[], map[]) else Translate(After(ms[..|ms| - 1]), ms[|ms| - 1]).0
  }

  /** After every stream the adapter tracks exactly the orders the messages leave, and each as they leave it. */
  lemma {:induction false} AdapterKeeps(ms: seq<Msg>)
    ensures Keeps(After(ms), ms)
  {
    if ms != [] {
      var n := |ms| - 1;
      AdapterKeeps(ms[..n]);
      TranslateKeeps(After(ms[..n]), ms[..n], ms[n]);
      assert ms[..n] + [ms[n]] == ms;
    }
  }

  /** The worlds of whole streams hold that adapter. */
  lemma {:induction false} FeedKeeps(w: World, ms: seq<Msg>)
    requires Sound(w) && w.ad == Adapter(map[], map[])
    ensures Feed(w, ms).ad == After(ms) && Keeps(Feed(w, ms).ad, ms)
  {
    AdapterKeeps(ms);
    if ms != [] { FeedKeeps(w, ms[..|ms| - 1]); }
  }

  // ---------- And its events say so ----------

  /** Taking `shares` off a tracked order: an update to what is left, or a delete when nothing is. */
  predicate Reduces(os: OrderState, ref: nat, shares: nat, e: FeedEvent) {
    if shares < os.remaining then e == ObResize(os.symbol, ref, os.remaining - shares)
    else e == ObDelete(os.symbol, ref)
  }

  /** The events for a message, from what the messages before it leave tracked. */
  ghost predicate Emits(ms: seq<Msg>, m: Msg, es: seq<FeedEvent>) {
    match m
    case AddOrder(ref, _, shares, price, _, _) =>
      var os := Comes(ms, m, ref);
      if os.None? then es == [] else es == [ObAdd(os.value.symbol, ref, os.value.side, price, shares)]
    case OrderExecuted(ref, shares) =>
      var os := Held(ms, ref);
      if os.None? then es == []
      else
        && |es| == 2 && Reduces(os.value, ref, shares, es[0])
        && es[1] == ObTrade(os.value.symbol, os.value.price, shares, if os.value.side == Bid then Sell else Buy)
    case OrderCancel(ref, shares) =>
      var os := Held(ms, ref);
      if os.None? then es == [] else |es| == 1 && Reduces(os.value, ref, shares, es[0])
    case OrderDelete(ref) =>
      var os := Held(ms, ref);
      if os.None? then es == [] else es == [ObDelete(os.value.symbol, ref)]
    case OrderReplace(orig, ref, shares, price) =>
      var os := Held(ms, orig);
      if os.None? then es == []
      else es == [ObDelete(os.value.symbol, orig), ObAdd(os.value.symbol, ref, os.value.side, price, shares)]
    case StockDirectory(_, name) => es == [ObTickSize(TrimRight(name), 0.01)]
    case TradePrint(text, shares, price, stock, locate) =>
      var s := Named(ms, stock, locate);
      if s.None? then es == []
      else
        && |es| == 1 && es[0].ObTrade? && es[0] == ObTrade(s.value, price, shares, es[0].aggr)
        && NamesSide(text, es[0].aggr)
    case Ignored => es == []
  }

  /** `B` names a buyer, `S` a seller, anything else nobody. */
  predicate NamesSide(text: Option<string>, aggr: Aggressor) {
    && (aggr == Buy <==> text.Some? && "B" <= text.value)
    && (aggr == Sell <==> text.Some? && "S" <= text.value)
  }

  lemma TranslateEmits(ad: Adapter, ms: seq<Msg>, m: Msg)
    requires Keeps(ad, ms)
    ensures Emits(ms, m, Translate(ad, m).1)
  {
    match m
    case OrderExecuted(ref, _) => assert TrackedBy(ad, ref) == Held(ms, ref);
    case OrderCancel(ref, _) => assert TrackedBy(ad, ref) == Held(ms, ref);
    case OrderDelete(ref) => assert TrackedBy(ad, ref) == Held(ms, ref);
    case OrderReplace(orig, _, _, _) => assert TrackedBy(ad, orig) == Held(ms, orig);
    case AddOrder(_, _, _, _, stock, locate) => ResolveNamed(ad, ms, stock, locate);
    case TradePrint(_, _, _, stock, locate) => ResolveNamed(ad, ms, stock, locate);
    case _ =>
  }

  // ---------- The adapter object ----------

  class ItchAdapter {
    var locateToSymbol: map<int, string>
    var orders: map<nat, OrderState>
    /** The messages handled. */
    ghost var history: seq<Msg>

    function State(): Adapter
      reads this
    {
      Adapter(locateToSymbol, orders)
    }

    /** It tracks exactly what the messages handled leave. */
    ghost predicate Valid()
      reads this
    {
      Keeps(State(), history)
    }

    constructor ()
      ensures Valid() && history == [] && State() == Adapter(map[], map[])
    {
      locateToSymbol, orders, history := map[], map[], [];
    }

    method Handle(m: Msg) returns (out: seq<FeedEvent>)
      requires Valid()
      modifies this
      ensures Valid() && history == old(history) + [m]
      ensures Emits(old(history), m, out)
      ensures (State(), out) == Translate(old(State()), m)
    {
      TranslateKeeps(State(), history, m);
      TranslateEmits(State(), history, m);
      out := Route(m);
      history := history + [m];
    }

    method Route(m: Msg) returns (out: seq<FeedEvent>)
      modifies `orders, `locateToSymbol
      ensures (State(), out) == Translate(old(State()), m)
    {
      out := [];
      match m
      case AddOrder(ref, text, shares, price, stock, locate) =>
        var s := Resolve(State(), stock, locate);
        if s.Some? {
          orders := orders[ref := OrderState(s.value, shares, SideOf(text), price)];
          out := [ObAdd(s.value, ref, SideOf(text), price, shares)];
        }
      case OrderExecuted(ref, shares) =>
        if ref in orders {
          var os := orders[ref];
          var e := Reduce(ref, shares);
          out := [e, ObTrade(os.symbol, os.price, shares, AggressorOf(os.side))];
        }
      case OrderCancel(ref, shares) =>
        if ref in orders {
          var e := Reduce(ref, shares);
          out := [e];
        }
      case OrderDelete(ref) =>
        if ref in orders {
          out := [ObDelete(orders[ref].symbol, ref)];
          orders := orders - {ref};
        }
      case OrderReplace(orig, ref, shares, price) =>
        if orig in orders {
          var os := orders[orig];
          orders := orders - {orig};
          orders := orders[ref := OrderState(os.symbol, shares, os.side, price)];
          out := [ObDelete(os.symbol, orig), ObAdd(os.symbol, ref, os.side, price, shares)];
        }
      case StockDirectory(id, name) =>
        locateToSymbol := locateToSymbol[id := TrimRight(name)];
        out := [ObTickSize(TrimRight(name), 0.01)];
      case TradePrint(text, shares, price, stock, locate) =>
        var s := Resolve(State(), stock, locate);
        if s.Some? {
          out := [ObTrade(s.value, price, shares, AggressorNamed(text))];
        }
      case Ignored =>
    }

    /** Take shares off a tracked order, or stop tracking it when none are left. */
    method Reduce(ref: nat, shares: nat) returns (e: FeedEvent)
      requires ref in orders
      modifies `orders
      ensures Reduces(old(orders[ref]), ref, shares, e)
      ensures orders == if shares < old(orders[ref].remaining)
        then old(orders)[ref := old(orders[ref]).(remaining := old(orders[ref].remaining) - shares)]
        else old(orders) - {ref}
    {
      var os := orders[ref];
      if shares >= os.remaining {
        e := ObDelete(os.symbol, ref);
        orders := orders - {ref};
      } else {
        orders := orders[ref := os.(remaining := os.remaining - shares)];
        e := ObResize(os.symbol, ref, os.remaining - shares);
      }
    }
  }
}
