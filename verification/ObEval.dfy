/**
 * Two evaluators of order-book keys: the materializer, which works on a parsed
 * key and a whole ladder, and the provider, which works on the key's text and
 * a ladder cut to a depth. Doubles are reals, with `NaN` kept apart.
 */
module ObEval {
  import opened Seqs
  import opened ObKeys

  datatype Double = NaN | Num(v: real)

  function Plus(a: Double, b: Double): Double {
    if a.Num? && b.Num? then Num(a.v + b.v) else NaN
  }

  datatype Level = Level(price: real, size: real, orders: Double, notional: Double)

  /** Levels from best to worst on each side. */
  datatype Snapshot = Snapshot(bids: seq<Level>, asks: seq<Level>)

  function BySide(s: Snapshot, side: Side): seq<Level> {
    if side == Bid then s.bids else s.asks
  }

  function Least(a: int, b: int): int {
    if a <= b then a else b
  }

  function Most(a: int, b: int): int {
    if a >= b then a else b
  }

  function Attr(l: Level, t: Target): Double {
    match t
    case Price => Num(l.price)
    case Size => Num(l.size)
    case Orders => l.orders
    case Notional => l.notional
  }

  // ---------- Sums over a run of levels ----------

  /** Sizes of levels `lo`..`hi - 1`, counting from 0; levels past the end count nothing. */
  function SumSize(l: seq<Level>, lo: int, hi: int): real
    requires 0 <= lo
    decreases hi - lo
  {
    if hi <= lo then 0.0 else SumSize(l, lo, hi - 1) + (if hi <= |l| then l[hi - 1].size else 0.0)
  }

  function SumPriceSize(l: seq<Level>, lo: int, hi: int): real
    requires 0 <= lo && hi <= |l|
    decreases hi - lo
  {
    if hi <= lo then 0.0 else SumPriceSize(l, lo, hi - 1) + l[hi - 1].price * l[hi - 1].size
  }

  function SumAttr(l: seq<Level>, n: nat, t: Target): Double
    requires n <= |l|
  {
    if n == 0 then Num(0.0) else Plus(SumAttr(l, n - 1, t), Attr(l[n - 1], t))
  }

  // ---------- The materializer ----------

  function SpreadOf(s: Snapshot): Double {
    if s.bids == [] || s.asks == [] then NaN else Num(s.asks[0].price - s.bids[0].price)
  }

  function LevelOf(s: Snapshot, side: Side, n: int, t: Target): Double {
    var l := BySide(s, side);
    if n <= 0 || n > |l| then NaN else Attr(l[n - 1], t)
  }

  function CumOf(s: Snapshot, side: Side, n: int, t: Target): Double {
    var l := BySide(s, side);
    if l == [] || n <= 0 then Num(0.0) else SumAttr(l, Least(n, |l|), t)
  }

  function VwapOf(s: Snapshot, side: Side, a: int, b: int): Double {
    var l := BySide(s, side);
    var lo, hi := Most(1, a), Least(|l|, b);
    if l == [] || lo > hi then NaN else
    var v := SumSize(l, lo - 1, hi);
    if v <= 0.0 then NaN else Num(SumPriceSize(l, lo - 1, hi) / v)
  }

  function Ratio(b: real, a: real): Double {
    if b + a <= 0.0 then Num(0.0) else Num((b - a) / (b + a))
  }

  function ImbalanceOf(s: Snapshot, a: int, b: int): Double {
    var lo := Most(1, a) - 1;
    Ratio(SumSize(s.bids, lo, b), SumSize(s.asks, lo, b))
  }

  /** `eval` on the metrics the two evaluators share. */
  function Eval(s: Snapshot, m: Metric): Double
    requires m.Spread? || m.LevelIdx? || m.Cum? || m.Imbalance?
  {
    match m
    case Spread => SpreadOf(s)
    case LevelIdx(side, n, t) => LevelOf(s, side, n, t)
    case Cum(side, n, t) => CumOf(s, side, n, t)
    case Imbalance(a, b) => ImbalanceOf(s, a, b)
  }

  // ---------- The materializer's loops ----------

  method CumLevels(s: Snapshot, side: Side, n: int, t: Target) returns (acc: Double)
    ensures acc == CumOf(s, side, n, t)
  {
    var l := BySide(s, side);
    if l == [] || n <= 0 { return Num(0.0); }
    var count := Least(n, |l|);
    acc := Num(0.0);
    for i := 0 to count
      invariant acc == SumAttr(l, i, t)
    {
      acc := Plus(acc, Attr(l[i], t));
    }
  }

  method VwapLevels(s: Snapshot, side: Side, a: int, b: int) returns (r: Double)
    ensures r == VwapOf(s, side, a, b)
  {
    var l := BySide(s, side);
    if l == [] { return NaN; }
    var lo, hi := Most(1, a), Least(|l|, b);
    if lo > hi { return NaN; }
    var sumPV, sumV := 0.0, 0.0;
    for i := lo - 1 to hi
      invariant sumPV == SumPriceSize(l, lo - 1, i) && sumV == SumSize(l, lo - 1, i)
    {
      sumPV := sumPV + l[i].price * l[i].size;
      sumV := sumV + l[i].size;
    }
    if sumV <= 0.0 { return NaN; }
    return Num(sumPV / sumV);
  }

  method ImbalanceLevels(s: Snapshot, a: int, b: int) returns (r: Double)
    ensures r == ImbalanceOf(s, a, b)
  {
    var lo := Most(1, a);
    var bidQty, askQty := 0.0, 0.0;
    var i := lo - 1;
    while i < b
      invariant lo - 1 <= i && (i <= b || i == lo - 1)
      invariant bidQty == SumSize(s.bids, lo - 1, i) && askQty == SumSize(s.asks, lo - 1, i)
    {
      if i < |s.bids| { bidQty := bidQty + s.bids[i].size; }
      if i < |s.asks| { askQty := askQty + s.asks[i].size; }
      i := i + 1;
    }
    if bidQty + askQty <= 0.0 { return Num(0.0); }
    return Num((bidQty - askQty) / (bidQty + askQty));
  }

  // ---------- The provider ----------

  /** Split at dots, keeping empty tokens. */
  function SplitAll(s: string, cur: string): seq<string> {
    if s == [] then [cur]
    else if s[0] == '.' then [cur] + SplitAll(s[1..], [])
    else SplitAll(s[1..], cur + [s[0]])
  }

  /** `std::stoi`: a numeric prefix within the range of `int`; `None` is the thrown exception. */
  function Stoi(s: string): Option<int> {
    var t := SkipSpace(s);
    var neg := t != [] && t[0] == '-';
    var body := if t != [] && (t[0] == '-' || t[0] == '+') then t[1..] else t;
    if body == [] || !IsDigit(body[0]) then None else
    var v := Digits(body, 0).0;
    if neg then (if v <= INT_MAX + 1 then Some(0 - v) else None)
    else if v <= INT_MAX then Some(v) else None
  }

  /** The snapshot source: at most `n` levels a side. */
  function Capture(full: Snapshot, n: nat): Snapshot {
    Snapshot(full.bids[..Least(n, |full.bids|)], full.asks[..Least(n, |full.asks|)])
  }

  function FindDash(s: string): Option<nat> {
    if s == [] then None else if s[0] == '-' then Some(0) else
    var r := FindDash(s[1..]);
    if r.None? then None else Some(r.value + 1)
  }

  predicate SideWord(s: string) {
    s == "bid" || s == "ask"
  }

  function LadderFor(s: Snapshot, word: string): seq<Level> {
    if word == "bid" then s.bids else s.asks
  }

  /** The metric words each branch of the provider knows. */
  function WordAttr(l: Level, word: string): Double {
    if word == "price" then Num(l.price)
    else if word == "size" then Num(l.size)
    else if word == "notional" then l.notional
    else if word == "orders" then l.orders
    else NaN
  }

  function WordSum(l: seq<Level>, n: nat, word: string): Double
    requires n <= |l|
  {
    if n == 0 then Num(0.0)
    else if word == "size" || word == "notional" || word == "orders" then
      Plus(WordSum(l, n - 1, word), WordAttr(l[n - 1], word))
    else NaN
  }

  function ProviderGet(full: Snapshot, key: string, defPer: nat): Double {
    if key == "ob.spread" then SpreadOf(Capture(full, 1)) else ProviderOn(full, SplitAll(key, []), defPer)
  }

  /** The provider's answer to a key cut at its dots. */
  function ProviderOn(full: Snapshot, p: seq<string>, defPer: nat): Double {
    if |p| == 5 && p[0] == "ob" && p[1] == "level" && SideWord(p[2]) then
      var n := Stoi(p[3]);
      if n.None? || n.value <= 0 then NaN else
      var l := LadderFor(Capture(full, Most(defPer, n.value)), p[2]);
      if |l| < n.value then NaN else WordAttr(l[n.value - 1], p[4])
    else if |p| == 6 && p[0] == "ob" && p[1] == "cum" && SideWord(p[2]) && p[3] == "levels" then
      var n := Stoi(p[4]);
      if n.None? || n.value <= 0 then NaN else
      var l := LadderFor(Capture(full, Most(defPer, n.value)), p[2]);
      WordSum(l, Least(n.value, |l|), p[5])
    else if |p| == 4 && p[0] == "ob" && p[1] == "imbalance" && p[2] == "levels" then
      var dash := FindDash(p[3]);
      if dash.None? || dash.value >= |p[3]| then NaN else
      var m, n := Stoi(p[3][..dash.value]), Stoi(p[3][dash.value + 1..]);
      if m.None? || n.None? || m.value <= 0 || n.value < m.value then NaN else
      var s := Capture(full, Most(defPer, n.value));
      var hi := Least(n.value, Least(|s.bids|, |s.asks|));
      Ratio(SumSize(s.bids, m.value - 1, hi), SumSize(s.asks, m.value - 1, hi))
    else NaN
  }

  // ---------- Reading a printed key ----------

  lemma {:induction false} SplitAllPlain(x: string, cur: string)
    requires Plain(x, '.')
    ensures SplitAll(x, cur) == [cur + x]
  {
    if x == [] {
      assert cur + x == cur;
    } else {
      SplitAllPlain(x[1..], cur + [x[0]]);
      assert cur + [x[0]] + x[1..] == cur + x;
    }
  }

  lemma {:induction false} SplitAllCons(x: string, y: string, cur: string)
    requires Plain(x, '.')
    ensures SplitAll(x + "." + y, cur) == [cur + x] + SplitAll(y, [])
  {
    var s := x + "." + y;
    if x == [] {
      assert s[0] == '.' && s[1..] == y && cur + x == cur;
    } else {
      assert s[0] == x[0] && s[1..] == x[1..] + "." + y;
      SplitAllCons(x[1..], y, cur + [x[0]]);
      assert cur + [x[0]] + x[1..] == cur + x;
    }
  }

  lemma {:induction false} SplitAllJoin(ps: seq<string>)
    requires ps != [] && forall i :: 0 <= i < |ps| ==> Plain(ps[i], '.')
    ensures SplitAll(Join(ps), []) == ps
  {
    if |ps| == 1 {
      SplitAllPlain(ps[0], []);
      assert [] + ps[0] == ps[0];
    } else {
      SplitAllJoin(ps[1..]);
      SplitAllCons(ps[0], Join(ps[1..]), []);
      assert [] + ps[0] == ps[0];
    }
  }

  lemma StoiPrinted(n: int)
    requires 1 <= n <= INT_MAX
    ensures Stoi(PrintInt(n)) == Some(n)
  {
    PrintNatDigits(n);
    DigitsOfPrint(n);
    assert IsDigit(PrintNat(n)[0]);
  }

  lemma {:induction false} DashAfter(x: string, y: string)
    requires Plain(x, '-')
    ensures FindDash(x + "-" + y) == Some(|x|)
  {
    var s := x + "-" + y;
    if x != [] {
      assert s[0] == x[0] && s[1..] == x[1..] + "-" + y;
      DashAfter(x[1..], y);
    }
  }

  // ---------- The two evaluators agree ----------

  lemma SpreadAgrees(d: Decimals, full: Snapshot, defPer: nat)
    ensures ProviderGet(full, FormatKey(d, ObKey(Spread, Per)), defPer) == Eval(full, Spread)
  {
    var ps := ["ob"] + ["spread"] + [];
    assert ps == ["ob", "spread"] && ps[1..] == ["spread"];
    assert Join(["spread"]) == "spread";
    assert Join(ps) == "ob" + "." + "spread" == "ob.spread";
  }

  lemma SpreadText()
    ensures SplitAll("ob.spread", []) == ["ob", "spread"]
  {
    assert "ob.spread" == "ob" + "." + "spread";
    SplitAllCons("ob", "spread", []);
    SplitAllPlain("spread", []);
    assert [] + "ob" == "ob" && [] + "spread" == "spread";
  }

  lemma Dispatches(full: Snapshot, ps: seq<string>, defPer: nat)
    requires |ps| > 2 && forall i :: 0 <= i < |ps| ==> Plain(ps[i], '.')
    ensures ProviderGet(full, Join(ps), defPer) == ProviderOn(full, ps, defPer)
  {
    SplitAllJoin(ps);
    SpreadText();
  }

  lemma LevelAgrees(d: Decimals, full: Snapshot, side: Side, n: int, t: Target, defPer: nat)
    requires 1 <= n <= INT_MAX
    ensures ProviderGet(full, FormatKey(d, ObKey(LevelIdx(side, n, t), Per)), defPer)
         == Eval(full, LevelIdx(side, n, t))
  {
    var ps := ["ob", "level", SideText(side), PrintInt(n), TargetText(t)];
    assert ["ob"] + Pieces(d, LevelIdx(side, n, t)) + [] == ps;
    PrintedIsPlain(n, '.');
    Dispatches(full, ps, defPer);
    LevelOnPieces(full, side, n, t, defPer);
  }

  lemma LevelOnPieces(full: Snapshot, side: Side, n: int, t: Target, defPer: nat)
    requires 1 <= n <= INT_MAX
    ensures ProviderOn(full, ["ob", "level", SideText(side), PrintInt(n), TargetText(t)], defPer)
         == LevelOf(full, side, n, t)
  {
    StoiPrinted(n);
  }

  lemma {:induction false} WordSumIsSumAttr(cut: seq<Level>, full: seq<Level>, n: nat, t: Target)
    requires n <= |cut| && n <= |full| && cut[..n] == full[..n] && !t.Price?
    ensures WordSum(cut, n, TargetText(t)) == SumAttr(full, n, t)
  {
    if n > 0 {
      assert cut[..n][..n - 1] == cut[..n - 1] && full[..n][..n - 1] == full[..n - 1];
      WordSumIsSumAttr(cut, full, n - 1, t);
      assert cut[n - 1] == cut[..n][n - 1] == full[..n][n - 1] == full[n - 1];
    }
  }

  lemma {:induction false} PriceSumIsNumber(l: seq<Level>, n: nat)
    requires n <= |l|
    ensures SumAttr(l, n, Price).Num?
  {
    if n > 0 { PriceSumIsNumber(l, n - 1); }
  }

  /** The provider sums over its cut as the materializer does, except that it refuses to sum prices. */
  lemma WordSumAgreesIff(full: seq<Level>, cut: seq<Level>, n: nat, t: Target)
    requires n <= |cut| && n <= |full| && cut[..n] == full[..n]
    ensures WordSum(cut, n, TargetText(t)) == SumAttr(full, n, t) <==> !t.Price? || n == 0
  {
    if t.Price? { PriceSumIsNumber(full, n); } else { WordSumIsSumAttr(cut, full, n, t); }
  }

  lemma CumOnPieces(full: Snapshot, side: Side, n: int, t: Target, defPer: nat)
    requires 1 <= n <= INT_MAX
    ensures var l := LadderFor(Capture(full, Most(defPer, n)), SideText(side));
      ProviderOn(full, ["ob", "cum", SideText(side), "levels", PrintInt(n), TargetText(t)], defPer)
        == WordSum(l, Least(n, |l|), TargetText(t))
  {
    StoiPrinted(n);
  }

  /**
   * Cumulative keys agree on size, notional and orders. The parser also takes
   * `price`: the materializer sums the prices, the provider answers NaN, and
   * the two agree exactly when the side is empty.
   */
  lemma CumAgreesIff(d: Decimals, full: Snapshot, side: Side, n: int, t: Target, defPer: nat)
    requires 1 <= n <= INT_MAX
    ensures ProviderGet(full, FormatKey(d, ObKey(Cum(side, n, t), Per)), defPer) == Eval(full, Cum(side, n, t))
       <==> !t.Price? || BySide(full, side) == []
  {
    var ps := ["ob", "cum", SideText(side), "levels", PrintInt(n), TargetText(t)];
    assert ["ob"] + Pieces(d, Cum(side, n, t)) + [] == ps;
    PrintedIsPlain(n, '.');
    Dispatches(full, ps, defPer);
    CumOnPieces(full, side, n, t, defPer);
    var l := BySide(full, side);
    var cut := LadderFor(Capture(full, Most(defPer, n)), SideText(side));
    assert Least(n, |cut|) == Least(n, |l|);
    WordSumAgreesIff(l, cut, Least(n, |l|), t);
  }

  /** One bid at 100: the materializer answers 100, the provider NaN. */
  lemma CumPriceExample(d: Decimals, defPer: nat)
    ensures var full := Snapshot([Level(100.0, 1.0, NaN, Num(100.0))], []);
      && Eval(full, Cum(Bid, 1, Price)) == Num(100.0)
      && ProviderGet(full, FormatKey(d, ObKey(Cum(Bid, 1, Price), Per)), defPer) != Num(100.0)
  {
    var full := Snapshot([Level(100.0, 1.0, NaN, Num(100.0))], []);
    assert SumAttr(full.bids, 1, Price) == Num(100.0);
    CumAgreesIff(d, full, Bid, 1, Price, defPer);
  }

  // ---------- Imbalance: when they agree ----------

  /** The provider stops at the shallower side. */
  function CutImbalance(full: Snapshot, a: int, b: int): Double
    requires 1 <= a <= b
  {
    var hi := Least(b, Least(|full.bids|, |full.asks|));
    Ratio(SumSize(full.bids, a - 1, hi), SumSize(full.asks, a - 1, hi))
  }

  lemma {:induction false} SumOfCut(l: seq<Level>, n: nat, lo: nat, hi: int)
    requires n <= |l| && hi <= n
    ensures SumSize(l[..n], lo, hi) == SumSize(l, lo, hi)
    decreases hi
  {
    if lo < hi { SumOfCut(l, n, lo, hi - 1); }
  }

  lemma RangeReads(a: int, b: int)
    requires Levels(a, b)
    ensures var r := RangeText(a, b);
      var d := FindDash(r);
      && d.Some? && d.value < |r|
      && Stoi(r[..d.value]) == Some(a) && Stoi(r[d.value + 1..]) == Some(b)
  {
    PrintedIsPlain(a, '-');
    DashAfter(PrintInt(a), PrintInt(b));
    var d := |PrintInt(a)|;
    assert RangeText(a, b)[..d] == PrintInt(a) && RangeText(a, b)[d + 1..] == PrintInt(b);
    StoiPrinted(a);
    StoiPrinted(b);
  }

  lemma CutOfCapture(full: Snapshot, n: nat, a: int, b: int)
    requires 1 <= a <= b <= n
    ensures CutImbalance(Capture(full, n), a, b) == CutImbalance(full, a, b)
  {
    var hi := Least(b, Least(|full.bids|, |full.asks|));
    SumOfCut(full.bids, Least(n, |full.bids|), a - 1, hi);
    SumOfCut(full.asks, Least(n, |full.asks|), a - 1, hi);
  }

  lemma ImbalanceIsCut(d: Decimals, full: Snapshot, a: int, b: int, defPer: nat)
    requires Levels(a, b)
    ensures ProviderGet(full, FormatKey(d, ObKey(Imbalance(a, b), Per)), defPer) == CutImbalance(full, a, b)
  {
    var ps := ["ob", "imbalance", "levels", RangeText(a, b)];
    assert ["ob"] + Pieces(d, Imbalance(a, b)) + [] == ps;
    RangeIsPlain(a, b);
    Dispatches(full, ps, defPer);
    ImbalanceOnPieces(full, a, b, defPer);
  }

  lemma ImbalanceOnPieces(full: Snapshot, a: int, b: int, defPer: nat)
    requires Levels(a, b)
    ensures ProviderOn(full, ["ob", "imbalance", "levels", RangeText(a, b)], defPer) == CutImbalance(full, a, b)
  {
    RangeReads(a, b);
    assert ProviderOn(full, ["ob", "imbalance", "levels", RangeText(a, b)], defPer)
        == CutImbalance(Capture(full, Most(defPer, b)), a, b);
    CutOfCapture(full, Most(defPer, b), a, b);
  }

  predicate PositiveSizes(l: seq<Level>) {
    forall i :: 0 <= i < |l| ==> l[i].size > 0.0
  }

  lemma {:induction false} SumSizePositive(l: seq<Level>, lo: nat, hi: int)
    requires PositiveSizes(l)
    ensures SumSize(l, lo, hi) >= 0.0
    ensures lo < hi && lo < |l| ==> SumSize(l, lo, hi) > 0.0
    ensures |l| <= lo ==> SumSize(l, lo, hi) == 0.0
    decreases hi
  {
    if lo < hi { SumSizePositive(l, lo, hi - 1); }
  }

  /** Summing on past `mid` adds something exactly when some level lies there. */
  lemma {:induction false} SumSizeGrows(l: seq<Level>, lo: nat, mid: int, hi: int)
    requires PositiveSizes(l) && mid <= hi
    ensures SumSize(l, lo, mid) <= SumSize(l, lo, hi)
    ensures SumSize(l, lo, mid) == SumSize(l, lo, hi) <==> Least(hi, |l|) <= Most(lo, mid)
    decreases hi - mid
  {
    if mid < hi { SumSizeGrows(l, lo, mid, hi - 1); }
  }

  lemma RatioGrows(b: real, a: real, x: real)
    requires (b > 0.0 && a > 0.0) || (b == 0.0 && a == 0.0)
    requires x >= 0.0
    ensures Ratio(b + x, a) == Ratio(b, a) <==> x == 0.0
    ensures Ratio(b, a + x) == Ratio(b, a) <==> x == 0.0
  {
    if x > 0.0 && a > 0.0 {
      var d, e := b + a, b + a + x;
      Cross(b + x - a, e, b - a, d);
      Cross(b - a - x, e, b - a, d);
      assert (b + x - a) * d - (b - a) * e == 2.0 * a * x;
      assert (b - a - x) * d - (b - a) * e == -2.0 * b * x;
      Positive(2.0 * a, x);
      Positive(2.0 * b, x);
    }
  }

  lemma Positive(a: real, b: real)
    requires a > 0.0 && b > 0.0
    ensures a * b > 0.0
  {
  }

  lemma Cross(p: real, q: real, r: real, s: real)
    requires q > 0.0 && s > 0.0
    ensures p / q == r / s <==> p * s == r * q
    ensures p / q <= r / s <==> p * s <= r * q
  {
    var x, y := p / q, r / s;
    assert p == x * q && r == y * s;
    assert p * s == x * (q * s) && r * q == y * (q * s);
    Positive(q, s);
    ScaleOrder(x, y, q * s);
  }

  lemma ScaleOrder(x: real, y: real, k: real)
    requires k > 0.0
    ensures x * k == y * k <==> x == y
    ensures x * k <= y * k <==> x <= y
  {
    if x < y { Positive(y - x, k); } else if y < x { Positive(x - y, k); }
    assert (y - x) * k == y * k - x * k;
  }

  /** Both sides are equally deep within the range, or the range starts below the deeper one. */
  predicate SameDepth(full: Snapshot, a: int, b: int) {
    var db, da := Least(b, |full.bids|), Least(b, |full.asks|);
    db == da || Most(db, da) < a
  }

  lemma {:induction false} SumSizePast(l: seq<Level>, lo: nat, mid: int, hi: int)
    requires mid <= hi && (mid == hi || |l| <= mid || |l| <= lo)
    ensures SumSize(l, lo, mid) == SumSize(l, lo, hi)
    decreases hi - mid
  {
    if mid < hi { SumSizePast(l, lo, mid, hi - 1); }
  }

  /** Equal depth suffices whatever the sizes. */
  lemma SameDepthAgrees(d: Decimals, full: Snapshot, a: int, b: int, defPer: nat)
    requires Levels(a, b) && SameDepth(full, a, b)
    ensures ProviderGet(full, FormatKey(d, ObKey(Imbalance(a, b), Per)), defPer) == Eval(full, Imbalance(a, b))
  {
    ImbalanceIsCut(d, full, a, b, defPer);
    var lo, hi := a - 1, Least(b, Least(|full.bids|, |full.asks|));
    SumSizePast(full.bids, lo, hi, b);
    SumSizePast(full.asks, lo, hi, b);
  }

  predicate NonNegative(l: seq<Level>) {
    forall i :: 0 <= i < |l| ==> l[i].size >= 0.0
  }

  lemma {:induction false} SumSizeMonotone(l: seq<Level>, lo: nat, mid: int, hi: int)
    requires NonNegative(l) && mid <= hi
    ensures 0.0 <= SumSize(l, lo, mid) <= SumSize(l, lo, hi)
    decreases hi
  {
    if lo < hi {
      SumSizeMonotone(l, lo, if mid < hi then mid else hi - 1, hi - 1);
    }
  }

  /** Size past the shallower side is not seen: there is none, or that side alone has size in what is seen. */
  predicate Unseen(past: real, mine: real, other: real) {
    past == 0.0 || (other == 0.0 && mine > 0.0)
  }

  lemma RatioUnseenIff(b: real, a: real, x: real)
    requires b >= 0.0 && a >= 0.0 && x >= 0.0
    ensures Ratio(b + x, a) == Ratio(b, a) <==> Unseen(x, b, a)
    ensures Ratio(b, a + x) == Ratio(b, a) <==> Unseen(x, a, b)
  {
    if x > 0.0 {
      RatioBothSides(b, a, x);
      RatioBothSides(a, b, x);
      RatioBounded(b, a);
      RatioBounded(b, a + x);
      RatioBounded(a, b);
      RatioBounded(a + x, b);
    }
  }

  lemma RatioBothSides(b: real, a: real, x: real)
    requires b >= 0.0 && a >= 0.0 && x > 0.0
    ensures Ratio(b + x, a) == Ratio(b, a) <==> a == 0.0 && b > 0.0
  {
    if a > 0.0 && b > 0.0 {
      RatioGrows(b, a, x);
    } else if a == 0.0 {
      Whole(b + x);
      if b > 0.0 { Whole(b); }
    } else {
      Cross(x - a, x + a, -a, a);
      assert (x - a) * a - (-a) * (x + a) == 2.0 * (a * x);
      Positive(a, x);
    }
  }

  lemma Whole(x: real)
    requires x > 0.0
    ensures Ratio(x, 0.0) == Num(1.0)
  {
    assert x / x == 1.0;
  }

  /**
   * On the sizes a book can hold, the two imbalances agree exactly when the
   * size the provider does not see, past the shallower side, makes no difference.
   */
  lemma ImbalanceAgreesIff(d: Decimals, full: Snapshot, a: int, b: int, defPer: nat)
    requires Levels(a, b) && NonNegative(full.bids) && NonNegative(full.asks)
    ensures var lo, hi := a - 1, Least(b, Least(|full.bids|, |full.asks|));
      var bids, asks := SumSize(full.bids, lo, hi), SumSize(full.asks, lo, hi);
      ProviderGet(full, FormatKey(d, ObKey(Imbalance(a, b), Per)), defPer) == Eval(full, Imbalance(a, b))
      <==> Unseen(SumSize(full.bids, lo, b) - bids, bids, asks) && Unseen(SumSize(full.asks, lo, b) - asks, asks, bids)
  {
    ImbalanceIsCut(d, full, a, b, defPer);
    CutAgreesIff(full, a, b);
  }

  lemma CutAgreesIff(full: Snapshot, a: int, b: int)
    requires 1 <= a <= b && NonNegative(full.bids) && NonNegative(full.asks)
    ensures var lo, hi := a - 1, Least(b, Least(|full.bids|, |full.asks|));
      var bids, asks := SumSize(full.bids, lo, hi), SumSize(full.asks, lo, hi);
      CutImbalance(full, a, b) == ImbalanceOf(full, a, b)
      <==> Unseen(SumSize(full.bids, lo, b) - bids, bids, asks) && Unseen(SumSize(full.asks, lo, b) - asks, asks, bids)
  {
    var lo, hi := a - 1, Least(b, Least(|full.bids|, |full.asks|));
    var bids, asks := SumSize(full.bids, lo, hi), SumSize(full.asks, lo, hi);
    SumSizeMonotone(full.bids, lo, hi, b);
    SumSizeMonotone(full.asks, lo, hi, b);
    if |full.bids| <= |full.asks| { SumSizePast(full.bids, lo, hi, b); } else { SumSizePast(full.asks, lo, hi, b); }
    RatioUnseenIff(bids, asks, SumSize(full.bids, lo, b) - bids);
    RatioUnseenIff(bids, asks, SumSize(full.asks, lo, b) - asks);
  }

  /** On positive sizes the two imbalances agree exactly when the range is equally deep on both sides. */
  lemma ImbalanceDepthIff(d: Decimals, full: Snapshot, a: int, b: int, defPer: nat)
    requires Levels(a, b) && PositiveSizes(full.bids) && PositiveSizes(full.asks)
    ensures ProviderGet(full, FormatKey(d, ObKey(Imbalance(a, b), Per)), defPer) == Eval(full, Imbalance(a, b))
       <==> SameDepth(full, a, b)
  {
    ImbalanceIsCut(d, full, a, b, defPer);
    var lo, hi := a - 1, Least(b, Least(|full.bids|, |full.asks|));
    var bs, as_ := SumSize(full.bids, lo, hi), SumSize(full.asks, lo, hi);
    SumSizePositive(full.bids, lo, hi);
    SumSizePositive(full.asks, lo, hi);
    SumSizeGrows(full.bids, lo, hi, b);
    SumSizeGrows(full.asks, lo, hi, b);
    RatioGrows(bs, as_, SumSize(full.bids, lo, b) - bs);
    RatioGrows(bs, as_, SumSize(full.asks, lo, b) - as_);
  }

  /** One bid level against two ask levels: the provider sees balance, the materializer does not. */
  lemma UnevenDepthExample(d: Decimals, l: Level, defPer: nat)
    requires l.size > 0.0
    ensures var full := Snapshot([l], [l, l]);
      ProviderGet(full, FormatKey(d, ObKey(Imbalance(1, 2), Per)), defPer) != Eval(full, Imbalance(1, 2))
  {
    ImbalanceDepthIff(d, Snapshot([l], [l, l]), 1, 2, defPer);
  }

  // ---------- Imbalance is a signed fraction ----------

  lemma RatioBounded(x: real, y: real)
    requires x >= 0.0 && y >= 0.0
    ensures Ratio(x, y).Num? && -1.0 <= Ratio(x, y).v <= 1.0 && Ratio(y, x) == Num(-Ratio(x, y).v)
  {
    if x + y > 0.0 {
      var d := x + y;
      Cross(x - y, d, 1.0, 1.0);
      Cross(-1.0, 1.0, x - y, d);
      Negated(x - y, d);
    }
  }

  lemma Negated(p: real, q: real)
    requires q > 0.0
    ensures (-p) / q == -(p / q)
  {
    var x := p / q;
    assert -p == (-x) * q;
  }

  lemma ImbalanceBounded(s: Snapshot, a: int, b: int)
    requires NonNegative(s.bids) && NonNegative(s.asks)
    ensures var r := ImbalanceOf(s, a, b);
      r.Num? && -1.0 <= r.v <= 1.0 && ImbalanceOf(Snapshot(s.asks, s.bids), a, b) == Num(-r.v)
  {
    var lo := Most(1, a) - 1;
    SumSizeMonotone(s.bids, lo, b, b);
    SumSizeMonotone(s.asks, lo, b, b);
    RatioBounded(SumSize(s.bids, lo, b), SumSize(s.asks, lo, b));
  }

  // ---------- VWAP ----------

  /** Prices never improve going away from the best. */
  predicate Ordered(side: Side, l: seq<Level>) {
    forall i, j :: 0 <= i < j < |l| ==> if side == Bid then l[i].price >= l[j].price else l[i].price <= l[j].price
  }

  /** `p` is no better than `q` on this side. */
  predicate NoBetter(side: Side, p: real, q: real) {
    if side == Bid then p <= q else p >= q
  }

  /** `x` is at most the average `pv / v`; no proof sees the product unless it unfolds it. */
  ghost predicate Below(x: real, v: real, pv: real) {
    forall n {:trigger Unfold(n)} :: Unfold(n) ==> x * v <= pv
  }

  ghost predicate Above(x: real, v: real, pv: real) {
    forall n {:trigger Unfold(n)} :: Unfold(n) ==> pv <= x * v
  }

  lemma {:induction false} WeightedBounds(l: seq<Level>, lo: nat, hi: nat, low: real, high: real)
    requires hi <= |l| && PositiveSizes(l)
    requires forall i :: lo <= i < hi ==> low <= l[i].price <= high
    ensures Below(low, SumSize(l, lo, hi), SumPriceSize(l, lo, hi))
    ensures Above(high, SumSize(l, lo, hi), SumPriceSize(l, lo, hi))
  {
    if lo < hi {
      WeightedBounds(l, lo, hi - 1, low, high);
      var x, v, pv := l[hi - 1], SumSize(l, lo, hi - 1), SumPriceSize(l, lo, hi - 1);
      AtLeast(low, x, v, pv, SumSize(l, lo, hi), SumPriceSize(l, lo, hi));
      AtMost(high, x, v, pv, SumSize(l, lo, hi), SumPriceSize(l, lo, hi));
    }
  }

  lemma AtLeast(low: real, x: Level, v: real, pv: real, v': real, pv': real)
    requires x.size > 0.0 && low <= x.price && Below(low, v, pv)
    requires v' == v + x.size && pv' == pv + x.price * x.size
    ensures Below(low, v', pv')
  {
    assert Unfold(0);
    ScaleOrder(low, x.price, x.size);
    Distributes(low, v, x.size);
  }

  lemma AtMost(high: real, x: Level, v: real, pv: real, v': real, pv': real)
    requires x.size > 0.0 && x.price <= high && Above(high, v, pv)
    requires v' == v + x.size && pv' == pv + x.price * x.size
    ensures Above(high, v', pv')
  {
    assert Unfold(0);
    ScaleOrder(x.price, high, x.size);
    Distributes(high, v, x.size);
  }

  lemma Averaged(x: real, v: real, pv: real)
    requires v > 0.0
    ensures Below(x, v, pv) ==> x <= pv / v
    ensures Above(x, v, pv) ==> pv / v <= x
  {
    assert Unfold(0);
    Cross(pv, v, x, 1.0);
    Cross(x, 1.0, pv, v);
  }

  lemma Distributes(x: real, v: real, s: real)
    ensures x * (v + s) == x * v + x * s
  {
  }

  /** The average over a run of levels lies between the prices at its two ends. */
  lemma VwapBetweenEnds(s: Snapshot, side: Side, a: int, b: int)
    requires var l := BySide(s, side);
      PositiveSizes(l) && Ordered(side, l) && Most(1, a) <= Least(|l|, b)
    ensures var l := BySide(s, side);
      var r := VwapOf(s, side, a, b);
      r.Num? && NoBetter(side, r.v, l[Most(1, a) - 1].price) && NoBetter(side, l[Least(|l|, b) - 1].price, r.v)
  {
    var l := BySide(s, side);
    var lo, hi := Most(1, a) - 1, Least(|l|, b);
    var first, last := l[lo].price, l[hi - 1].price;
    var v, pv := SumSize(l, lo, hi), SumPriceSize(l, lo, hi);
    SumSizePositive(l, lo, hi);
    if side == Bid { WeightedBounds(l, lo, hi, last, first); } else { WeightedBounds(l, lo, hi, first, last); }
    Averaged(first, v, pv);
    Averaged(last, v, pv);
  }

  /** Taking one more level never improves the average from the top. */
  lemma VwapNextLevel(s: Snapshot, side: Side, n: nat)
    requires var l := BySide(s, side);
      PositiveSizes(l) && Ordered(side, l) && 1 <= n < |l|
    ensures var x, y := VwapOf(s, side, 1, n), VwapOf(s, side, 1, n + 1);
      x.Num? && y.Num? && NoBetter(side, y.v, x.v)
  {
    VwapTop(s, side, n);
    VwapTop(s, side, n + 1);
    AverageWorsens(side, BySide(s, side), n);
  }

  lemma AverageWorsens(side: Side, l: seq<Level>, n: nat)
    requires PositiveSizes(l) && Ordered(side, l) && 1 <= n < |l|
    requires SumSize(l, 0, n) > 0.0 && SumSize(l, 0, n + 1) > 0.0
    ensures NoBetter(side, SumPriceSize(l, 0, n + 1) / SumSize(l, 0, n + 1), SumPriceSize(l, 0, n) / SumSize(l, 0, n))
  {
    var p, best := l[n].price, l[0].price;
    if side == Bid { WeightedBounds(l, 0, n, p, best); } else { WeightedBounds(l, 0, n, best, p); }
    Blend(l[n], SumSize(l, 0, n), SumPriceSize(l, 0, n), SumSize(l, 0, n + 1), SumPriceSize(l, 0, n + 1));
  }

  lemma VwapTop(s: Snapshot, side: Side, n: nat)
    requires var l := BySide(s, side);
      PositiveSizes(l) && 1 <= n <= |l|
    ensures var l := BySide(s, side);
      SumSize(l, 0, n) > 0.0 && VwapOf(s, side, 1, n) == Num(SumPriceSize(l, 0, n) / SumSize(l, 0, n))
  {
    SumSizePositive(BySide(s, side), 0, n);
  }

  /** Mixing in size at a price no better than the average moves the average that way. */
  lemma Blend(x: Level, v: real, pv: real, v': real, pv': real)
    requires v > 0.0 && x.size > 0.0 && v' == v + x.size && pv' == pv + x.price * x.size
    ensures Below(x.price, v, pv) ==> pv' / v' <= pv / v
    ensures Above(x.price, v, pv) ==> pv' / v' >= pv / v
  {
    assert Unfold(0);
    var p, z := x.price, x.size;
    Cross(pv', v', pv, v);
    Cross(pv, v, pv', v');
    Regroup(p, z, v, pv);
    ScaleOrder(p * v, pv, z);
    ScaleOrder(pv, p * v, z);
  }

  lemma Regroup(p: real, z: real, v: real, pv: real)
    ensures (pv + p * z) * v == pv * v + (p * v) * z
    ensures pv * (v + z) == pv * v + pv * z
  {
  }

  lemma {:induction false} VwapWithinDepth(s: Snapshot, side: Side, m: nat, n: nat)
    requires var l := BySide(s, side);
      PositiveSizes(l) && Ordered(side, l) && 1 <= m <= n <= |l|
    ensures var x, y := VwapOf(s, side, 1, m), VwapOf(s, side, 1, n);
      x.Num? && y.Num? && NoBetter(side, y.v, x.v)
    decreases n
  {
    if m < n {
      VwapWithinDepth(s, side, m, n - 1);
      VwapNextLevel(s, side, n - 1);
    } else {
      VwapBetweenEnds(s, side, 1, m);
    }
  }

  /**
   * The deeper the average from the top, the further it lies from the best
   * price, until the depth is used up; from there on it stays.
   */
  lemma VwapMovesAway(s: Snapshot, side: Side, m: int, n: int)
    requires PositiveSizes(BySide(s, side)) && Ordered(side, BySide(s, side)) && 1 <= m <= n
    ensures var l := BySide(s, side);
      var x, y := VwapOf(s, side, 1, m), VwapOf(s, side, 1, n);
      if l == [] then x == y == NaN
      else x.Num? && y.Num? && NoBetter(side, y.v, x.v) && (|l| <= m ==> x == y)
  {
    var l := BySide(s, side);
    if l != [] {
      VwapWithinDepth(s, side, Least(m, |l|), Least(n, |l|));
    }
  }

  // ---------- What spreads, sums and imbalances are ----------

  /** The spread is the least distance from any bid to any ask, and not negative exactly when no bid is above an ask. */
  lemma SpreadIsLeastGap(s: Snapshot)
    requires s.bids != [] && s.asks != [] && Ordered(Bid, s.bids) && Ordered(Ask, s.asks)
    ensures var r := SpreadOf(s);
      && r == Num(s.asks[0].price - s.bids[0].price)
      && (forall i, j :: 0 <= i < |s.bids| && 0 <= j < |s.asks| ==> r.v <= s.asks[j].price - s.bids[i].price)
      && (r.v >= 0.0 <==> forall i, j :: 0 <= i < |s.bids| && 0 <= j < |s.asks| ==> s.bids[i].price <= s.asks[j].price)
  {
    forall i, j | 0 <= i < |s.bids| && 0 <= j < |s.asks|
      ensures s.bids[i].price <= s.bids[0].price && s.asks[0].price <= s.asks[j].price
    {
      if i > 0 { assert s.bids[0].price >= s.bids[i].price; }
      if j > 0 { assert s.asks[0].price <= s.asks[j].price; }
    }
    assert s.bids[0].price <= s.asks[0].price <==> SpreadOf(s).v >= 0.0;
  }

  lemma {:induction false} SumAttrSplits(l: seq<Level>, n: nat, m: nat, t: Target)
    requires n + m <= |l|
    ensures SumAttr(l, n + m, t) == Plus(SumAttr(l, n, t), SumAttr(l[n..], m, t))
  {
    if m > 0 {
      SumAttrSplits(l, n, m - 1, t);
      assert l[n..][m - 1] == l[n + m - 1];
    }
  }

  /** The side without its first `n` levels. */
  function Dropped(s: Snapshot, side: Side, n: nat): Snapshot {
    var l := BySide(s, side);
    var rest := if n <= |l| then l[n..] else [];
    if side == Bid then s.(bids := rest) else s.(asks := rest)
  }

  /** A cumulative value over one run of levels and the next is the sum of the two. */
  lemma CumSplits(s: Snapshot, side: Side, n: nat, m: nat, t: Target)
    ensures CumOf(s, side, n + m, t) == Plus(CumOf(s, side, n, t), CumOf(Dropped(s, side, n), side, m, t))
  {
    var l := BySide(s, side);
    if l != [] {
      var a := Least(n, |l|);
      SumAttrSplits(l, a, Least(m, |l| - a), t);
      assert Least(n + m, |l|) == a + Least(m, |l| - a);
    }
  }

  /** The first level alone is its own cumulative value. */
  lemma CumOfFirst(s: Snapshot, side: Side, t: Target)
    requires BySide(s, side) != []
    ensures CumOf(s, side, 1, t) == LevelOf(s, side, 1, t)
  {
    assert SumAttr(BySide(s, side), 1, t) == Plus(SumAttr(BySide(s, side), 0, t), Attr(BySide(s, side)[0], t));
  }

  /** Imbalance times the size of both sides is their difference; with no size it is 0. */
  lemma ImbalanceMeans(s: Snapshot, a: int, b: int)
    requires NonNegative(s.bids) && NonNegative(s.asks) && 1 <= a
    ensures var bids, asks, r := SumSize(s.bids, a - 1, b), SumSize(s.asks, a - 1, b), ImbalanceOf(s, a, b);
      r.Num? && r.v * (bids + asks) == bids - asks && (bids + asks == 0.0 ==> r.v == 0.0)
  {
    SumSizeMonotone(s.bids, a - 1, b, b);
    SumSizeMonotone(s.asks, a - 1, b, b);
  }
}
