/**
 * The order-book key language: a parser and a printer. How a price is read
 * and shown is the standard library's affair and a parameter (`Decimals`).
 */
module ObKeys {
  import opened Seqs

  datatype Side = Bid | Ask
  datatype Mode = Per | Agg
  datatype Reduce = Sum | Avg | Min | Max | Count
  datatype Target = Price | Size | Orders | Notional

  /** A key's metric with the operands that metric uses; levels are 1-based and inclusive. */
  datatype Metric =
    | Spread
    | Mid
    | Best(side: Side, target: Target)
    | LevelIdx(side: Side, n: int, target: Target)
    | LevelPx(side: Side, px: real, target: Target)
    | RangeIdx(side: Side, a: int, b: int, reduce: Reduce, over: Option<Target>)
    | RangePx(side: Side, p1: real, p2: real, reduce: Reduce, over: Option<Target>)
    | Cum(side: Side, n: int, target: Target)
    | Vwap(side: Side, a: int, b: int)
    | VwapPx(side: Side, p1: real, p2: real)
    | Imbalance(a: int, b: int)
    | ImbalancePx(p1: real, p2: real)
    | Meta(field: string)

  datatype ObKey = ObKey(metric: Metric, mode: Mode)

  /** `strtod` on a whole token, and the stream's output of a double. */
  datatype Decimals = Decimals(read: string -> Option<real>, show: real -> string)

  const INT_MAX := 2147483647
  const LONG_MAX := 9223372036854775807

  // ---------- Text ----------

  /** Split at a separator, dropping empty tokens. */
  function Split(s: string, sep: char): seq<string> {
    SplitFrom(s, sep, [])
  }

  function SplitFrom(s: string, sep: char, cur: string): seq<string> {
    if s == [] then Token(cur)
    else if s[0] == sep then Token(cur) + SplitFrom(s[1..], sep, [])
    else SplitFrom(s[1..], sep, cur + [s[0]])
  }

  function Token(cur: string): seq<string> {
    if cur == [] then [] else [cur]
  }

  /** The splitting loop of the program. */
  method SplitText(s: string, sep: char) returns (out: seq<string>)
    ensures out == Split(s, sep)
  {
    out := [];
    var cur: string := [];
    for i := 0 to |s|
      invariant Split(s, sep) == out + SplitFrom(s[i..], sep, cur)
    {
      assert s[i..][1..] == s[i + 1..];
      if s[i] == sep {
        if cur != [] { out := out + [cur]; }
        cur := [];
      } else {
        cur := cur + [s[i]];
      }
    }
    if cur != [] { out := out + [cur]; }
  }

  function LowerChar(c: char): char {
    if 'A' <= c <= 'Z' then c + 32 as char else c
  }

  function Lower(s: string): string {
    seq(|s|, i requires 0 <= i < |s| => LowerChar(s[i]))
  }

  predicate IsDigit(c: char) {
    '0' <= c <= '9'
  }

  predicate IsSpace(c: char) {
    c == ' ' || '\t' <= c <= '\r'
  }

  /** The leading digits read as a decimal number, and what follows them. */
  function Digits(s: string, v: nat): (nat, string) {
    if s == [] || !IsDigit(s[0]) then (v, s) else Digits(s[1..], 10 * v + (s[0] as int - '0' as int))
  }

  function SkipSpace(s: string): string {
    if s != [] && IsSpace(s[0]) then SkipSpace(s[1..]) else s
  }

  /** Keep the low 32 bits as a signed number, as a narrowing to `int` does. */
  function ToInt32(v: int): int {
    var r := v % 0x1_0000_0000;
    if r > INT_MAX then r - 0x1_0000_0000 else r
  }

  /** The text as a C string: what stands before the first NUL. */
  function CStr(s: string): string {
    if s == [] || s[0] == '\0' then [] else [s[0]] + CStr(s[1..])
  }

  /** `strtol` in base 10, accepted only if it reads the whole C string; saturates, then narrows to `int`. */
  function ParseInt(s: string): Option<int> {
    ParseLong(CStr(s))
  }

  function ParseLong(s: string): Option<int> {
    if s == [] then Some(0) else
    var t := SkipSpace(s);
    var neg := t != [] && t[0] == '-';
    var body := if t != [] && (t[0] == '-' || t[0] == '+') then t[1..] else t;
    if body == [] || !IsDigit(body[0]) then None else
    var (v, rest) := Digits(body, 0);
    if rest != [] then None
    else if neg then Some(ToInt32(if v > LONG_MAX + 1 then -LONG_MAX - 1 else 0 - v))
    else Some(ToInt32(if v > LONG_MAX then LONG_MAX else v))
  }

  function ParseSide(s: string): Option<Side> {
    if Lower(s) == "bid" then Some(Bid) else if Lower(s) == "ask" then Some(Ask) else None
  }

  function ParseTarget(s: string): Option<Target> {
    var v := Lower(s);
    if v == "price" then Some(Price)
    else if v == "size" then Some(Size)
    else if v == "orders" then Some(Orders)
    else if v == "notional" then Some(Notional)
    else None
  }

  function ParseReduce(s: string): Option<Reduce> {
    var v := Lower(s);
    if v == "sum" then Some(Sum)
    else if v == "avg" then Some(Avg)
    else if v == "min" then Some(Min)
    else if v == "max" then Some(Max)
    else if v == "count" then Some(Count)
    else None
  }

  /** `A-B` with 1 <= A <= B. */
  function ParseRange(s: string): Option<(int, int)> {
    var ab := Split(s, '-');
    if |ab| != 2 then None else
    var a, b := ParseInt(ab[0]), ParseInt(ab[1]);
    if a.None? || b.None? || a.value < 1 || b.value < a.value then None else Some((a.value, b.value))
  }

  /** `N` for 1..N, or `A-B`. */
  function ParseLevels(s: string): Option<(int, int)> {
    var n := ParseInt(s);
    if n.Some? && n.value >= 1 then Some((1, n.value)) else ParseRange(s)
  }

  /** `P1-P2` with P1 <= P2. */
  function ParseBand(d: Decimals, s: string): Option<(real, real)> {
    var ab := Split(s, '-');
    if |ab| != 2 then None else
    var a, b := d.read(ab[0]), d.read(ab[1]);
    if a.None? || b.None? || b.value < a.value then None else Some((a.value, b.value))
  }

  /** The reducer of a range and what it reduces; a count reduces nothing. */
  function ParseReduction(t: seq<string>): Option<(Reduce, Option<Target>)>
    requires |t| == 6 || |t| == 7
  {
    var reduce := ParseReduce(t[5]);
    if reduce.None? then None
    else if reduce.value.Count? then Some((Count, None))
    else if |t| != 7 then None
    else
      var over := ParseTarget(t[6]);
      if over.None? then None else Some((reduce.value, over))
  }

  // ---------- Parsing ----------

  function ParseKey(d: Decimals, s: string): Option<ObKey> {
    var t := Split(s, '.');
    if t == [] || t[0] != "ob" then None else
    var last := t[|t| - 1];
    var suffixed := |t| >= 2 && (last == "per" || last == "agg");
    var mode := if suffixed && last == "agg" then Agg else Per;
    var metric := ParseMetric(d, if suffixed then t[..|t| - 1] else t);
    if metric.None? then None else Some(ObKey(metric.value, mode))
  }

  function ParseMetric(d: Decimals, t: seq<string>): Option<Metric> {
    if |t| == 2 && t[1] == "spread" then Some(Spread)
    else if |t| == 2 && t[1] == "mid" then Some(Mid)
    else if |t| == 4 && t[1] == "best" then
      var side, attr := ParseSide(t[2]), ParseTarget(t[3]);
      if side.None? || attr.None? || !(attr.value.Price? || attr.value.Size?) then None
      else Some(Best(side.value, attr.value))
    else if |t| == 5 && t[1] == "level" then
      var side, n, attr := ParseSide(t[2]), ParseInt(t[3]), ParseTarget(t[4]);
      if side.None? || n.None? || n.value < 1 || attr.None? then None
      else Some(LevelIdx(side.value, n.value, attr.value))
    else if |t| == 5 && t[1] == "at" then
      var side, px, attr := ParseSide(t[2]), d.read(t[3]), ParseTarget(t[4]);
      if side.None? || px.None? || attr.None? then None else Some(LevelPx(side.value, px.value, attr.value))
    else if (|t| == 7 || |t| == 6) && t[1] == "range" && t[3] == "levels" then
      var side, ab, red := ParseSide(t[2]), ParseRange(t[4]), ParseReduction(t);
      if side.None? || ab.None? || red.None? then None
      else Some(RangeIdx(side.value, ab.value.0, ab.value.1, red.value.0, red.value.1))
    else if (|t| == 7 || |t| == 6) && t[1] == "range" && t[3] == "price" then
      var side, ab, red := ParseSide(t[2]), ParseBand(d, t[4]), ParseReduction(t);
      if side.None? || ab.None? || red.None? then None
      else Some(RangePx(side.value, ab.value.0, ab.value.1, red.value.0, red.value.1))
    else if |t| == 6 && t[1] == "cum" && t[3] == "levels" then
      var side, n, target := ParseSide(t[2]), ParseInt(t[4]), ParseTarget(t[5]);
      if side.None? || n.None? || n.value < 1 || target.None? then None
      else Some(Cum(side.value, n.value, target.value))
    else if |t| >= 5 && t[1] == "vwap" then
      var side := ParseSide(t[2]);
      if side.None? || |t| != 5 then None
      else if t[3] == "levels" then
        var ab := ParseLevels(t[4]);
        if ab.None? then None else Some(Vwap(side.value, ab.value.0, ab.value.1))
      else if t[3] == "price" then
        var ab := ParseBand(d, t[4]);
        if ab.None? then None else Some(VwapPx(side.value, ab.value.0, ab.value.1))
      else None
    else if |t| >= 3 && t[1] == "imbalance" then
      if |t| != 4 then None
      else if t[2] == "levels" then
        var ab := ParseLevels(t[3]);
        if ab.None? then None else Some(Imbalance(ab.value.0, ab.value.1))
      else if t[2] == "price" then
        var ab := ParseBand(d, t[3]);
        if ab.None? then None else Some(ImbalancePx(ab.value.0, ab.value.1))
      else None
    else if |t| >= 2 && "meta" <= t[1] then
      if |t| == 3 then Some(Meta(t[2]))
      else if |t| == 4 && t[2] == "levels" then Some(Meta("levels." + t[3]))
      else None
    else None
  }

  // ---------- Printing ----------

  function Digit(d: nat): char
    requires d < 10
  {
    '0' + d as char
  }

  function PrintNat(n: nat): string {
    if n < 10 then [Digit(n)] else PrintNat(n / 10) + [Digit(n % 10)]
  }

  function PrintInt(n: int): string {
    if n < 0 then "-" + PrintNat(-n) else PrintNat(n)
  }

  function SideText(s: Side): string {
    if s == Bid then "bid" else "ask"
  }

  function TargetText(t: Target): string {
    match t case Price => "price" case Size => "size" case Orders => "orders" case Notional => "notional"
  }

  function ReduceText(r: Reduce): string {
    match r case Sum => "sum" case Avg => "avg" case Min => "min" case Max => "max" case Count => "count"
  }

  function RangeText(a: int, b: int): string {
    PrintInt(a) + "-" + PrintInt(b)
  }

  function BandText(d: Decimals, p1: real, p2: real): string {
    d.show(p1) + "-" + d.show(p2)
  }

  /** The last piece of a range: empty for a count. */
  function OverText(r: Reduce, over: Option<Target>): string {
    if r == Count then "" else if over.Some? then TargetText(over.value) else "notional"
  }

  /** The dot-separated pieces of the printed key; a count prints an empty last piece, hence a trailing dot. */
  function Pieces(d: Decimals, m: Metric): seq<string> {
    match m
    case Spread => ["spread"]
    case Mid => ["mid"]
    case Best(s, t) => ["best", SideText(s), if t == Price then "price" else "size"]
    case LevelIdx(s, n, t) => ["level", SideText(s), PrintInt(n), TargetText(t)]
    case LevelPx(s, p, t) => ["at", SideText(s), d.show(p), TargetText(t)]
    case RangeIdx(s, a, b, r, over) =>
      ["range", SideText(s), "levels", RangeText(a, b), ReduceText(r), OverText(r, over)]
    case RangePx(s, p1, p2, r, over) =>
      ["range", SideText(s), "price", BandText(d, p1, p2), ReduceText(r), OverText(r, over)]
    case Cum(s, n, t) => ["cum", SideText(s), "levels", PrintInt(n), TargetText(t)]
    case Vwap(s, a, b) => ["vwap", SideText(s), "levels", RangeText(a, b)]
    case VwapPx(s, p1, p2) => ["vwap", SideText(s), "price", BandText(d, p1, p2)]
    case Imbalance(a, b) => ["imbalance", "levels", RangeText(a, b)]
    case ImbalancePx(p1, p2) => ["imbalance", "price", BandText(d, p1, p2)]
    case Meta(f) => ["meta", f]
  }

  function Join(ps: seq<string>): string {
    if ps == [] then "" else if |ps| == 1 then ps[0] else ps[0] + "." + Join(ps[1..])
  }

  function FormatKey(d: Decimals, k: ObKey): string {
    Join(["ob"] + Pieces(d, k.metric) + (if k.mode == Agg then ["agg"] else []))
  }

  // ---------- Splitting what was joined ----------

  predicate Plain(s: string, sep: char) {
    forall i :: 0 <= i < |s| ==> s[i] != sep
  }

  lemma {:induction false} SplitFromAppend(x: string, y: string, sep: char, cur: string)
    ensures SplitFrom(x + [sep] + y, sep, cur) == SplitFrom(x, sep, cur) + SplitFrom(y, sep, [])
  {
    var s := x + [sep] + y;
    if x == [] {
      assert s[0] == sep && s[1..] == y;
    } else {
      assert s[0] == x[0] && s[1..] == x[1..] + [sep] + y;
      if x[0] == sep {
        SplitFromAppend(x[1..], y, sep, []);
      } else {
        SplitFromAppend(x[1..], y, sep, cur + [x[0]]);
      }
    }
  }

  lemma {:induction false} SplitFromPlain(x: string, sep: char, cur: string)
    requires Plain(x, sep)
    ensures SplitFrom(x, sep, cur) == Token(cur + x)
  {
    if x == [] {
      assert cur + x == cur;
    } else {
      SplitFromPlain(x[1..], sep, cur + [x[0]]);
      assert cur + [x[0]] + x[1..] == cur + x;
    }
  }

  lemma SplitPlain(x: string, sep: char)
    requires Plain(x, sep)
    ensures Split(x, sep) == Token(x)
  {
    SplitFromPlain(x, sep, []);
    assert [] + x == x;
  }

  lemma SplitTwo(x: string, y: string, sep: char)
    ensures Split(x + [sep] + y, sep) == Split(x, sep) + Split(y, sep)
  {
    SplitFromAppend(x, y, sep, []);
  }

  /** All tokens of all pieces. */
  function Tokens(ps: seq<string>): seq<string> {
    if ps == [] then [] else Split(ps[0], '.') + Tokens(ps[1..])
  }

  lemma {:induction false} SplitJoin(ps: seq<string>)
    ensures Split(Join(ps), '.') == Tokens(ps)
  {
    if |ps| == 1 {
      assert ps[1..] == [];
      assert Tokens(ps) == Split(ps[0], '.') + [];
    } else if |ps| > 1 {
      SplitJoin(ps[1..]);
      SplitTwo(ps[0], Join(ps[1..]), '.');
    }
  }

  lemma {:induction false} TokensAppend(a: seq<string>, b: seq<string>)
    ensures Tokens(a + b) == Tokens(a) + Tokens(b)
  {
    if a == [] {
      assert a + b == b;
    } else {
      assert (a + b)[1..] == a[1..] + b;
      TokensAppend(a[1..], b);
    }
  }

  /** Non-empty pieces without dots are their own tokens. */
  lemma {:induction false} TokensPlain(ps: seq<string>)
    requires forall i :: 0 <= i < |ps| ==> ps[i] != "" && Plain(ps[i], '.')
    ensures Tokens(ps) == ps
  {
    if ps != [] {
      SplitPlain(ps[0], '.');
      TokensPlain(ps[1..]);
    }
  }

  /** Splitting yields only non-empty tokens without the separator. */
  lemma {:induction false} SplitFromTokens(s: string, sep: char, cur: string)
    requires Plain(cur, sep)
    ensures forall i :: 0 <= i < |SplitFrom(s, sep, cur)| ==>
      SplitFrom(s, sep, cur)[i] != "" && Plain(SplitFrom(s, sep, cur)[i], sep)
  {
    if s != [] {
      if s[0] == sep {
        SplitFromTokens(s[1..], sep, []);
      } else {
        SplitFromTokens(s[1..], sep, cur + [s[0]]);
      }
    }
  }

  // ---------- Numbers ----------

  predicate AllDigits(s: string) {
    forall i :: 0 <= i < |s| ==> IsDigit(s[i])
  }

  lemma {:induction false} PrintNatDigits(n: nat)
    ensures PrintNat(n) != [] && AllDigits(PrintNat(n))
  {
    if n >= 10 { PrintNatDigits(n / 10); }
  }

  lemma {:induction false} DigitsAppend(x: string, y: string, v: nat)
    requires AllDigits(x)
    ensures Digits(x + y, v) == Digits(y, Digits(x, v).0) && Digits(x, v).1 == []
  {
    if x == [] {
      assert x + y == y;
    } else {
      assert (x + y)[1..] == x[1..] + y;
      DigitsAppend(x[1..], y, 10 * v + (x[0] as int - '0' as int));
    }
  }

  lemma {:induction false} DigitsOfPrint(n: nat)
    ensures Digits(PrintNat(n), 0) == (n, [])
  {
    PrintNatDigits(n);
    if n < 10 {
      assert PrintNat(n)[1..] == [];
    } else {
      PrintNatDigits(n / 10);
      DigitsOfPrint(n / 10);
      DigitsAppend(PrintNat(n / 10), [Digit(n % 10)], 0);
      assert [Digit(n % 10)][1..] == [];
    }
  }

  lemma {:induction false} CStrSame(s: string)
    requires forall i :: 0 <= i < |s| ==> s[i] != '\0'
    ensures CStr(s) == s
  {
    if s != [] { CStrSame(s[1..]); }
  }

  lemma ParsePrinted(n: int)
    requires 1 <= n <= INT_MAX
    ensures ParseInt(PrintInt(n)) == Some(n)
  {
    PrintNatDigits(n);
    CStrSame(PrintNat(n));
    DigitsOfPrint(n);
    assert IsDigit(PrintNat(n)[0]);
  }

  lemma RangeHasNoNul(a: int, b: int)
    requires 1 <= a && 1 <= b
    ensures CStr(RangeText(a, b)) == RangeText(a, b)
  {
    PrintNatDigits(a);
    PrintNatDigits(b);
    CStrSame(RangeText(a, b));
  }

  lemma RangeIsNoInt(a: int, b: int)
    requires 1 <= a <= INT_MAX && 1 <= b
    ensures ParseInt(RangeText(a, b)) == None
  {
    RangeHasNoNul(a, b);
    PrintNatDigits(a);
    DigitsOfPrint(a);
    var tail := "-" + PrintInt(b);
    assert RangeText(a, b) == PrintNat(a) + tail;
    assert IsDigit(RangeText(a, b)[0]);
    DigitsAppend(PrintNat(a), tail, 0);
    assert Digits(tail, a) == (a, tail);
  }

  lemma ParsePrintedRange(a: int, b: int)
    requires 1 <= a <= b <= INT_MAX
    ensures ParseRange(RangeText(a, b)) == Some((a, b)) && ParseLevels(RangeText(a, b)) == Some((a, b))
  {
    PrintNatDigits(a);
    PrintNatDigits(b);
    SplitTwo(PrintInt(a), PrintInt(b), '-');
    SplitPlain(PrintInt(a), '-');
    SplitPlain(PrintInt(b), '-');
    ParsePrinted(a);
    ParsePrinted(b);
    RangeIsNoInt(a, b);
    assert PrintInt(a) + "-" + PrintInt(b) == PrintInt(a) + ['-'] + PrintInt(b);
  }

  lemma LowerSame(s: string)
    requires forall i :: 0 <= i < |s| ==> !('A' <= s[i] <= 'Z')
    ensures Lower(s) == s
  {
  }

  // ---------- Which keys survive printing ----------

  predicate Levels(a: int, b: int) {
    1 <= a <= b <= INT_MAX
  }

  /** A single token, or `levels.` and one more. */
  predicate FieldOk(f: string) {
    var t := Split(f, '.');
    (|t| == 1 && f == t[0]) || (|t| == 2 && t[0] == "levels" && f == "levels." + t[1])
  }

  predicate WellFormed(m: Metric) {
    match m
    case Spread => true
    case Mid => true
    case Best(_, t) => t.Price? || t.Size?
    case LevelIdx(_, n, _) => 1 <= n <= INT_MAX
    case LevelPx(_, _, _) => true
    case RangeIdx(_, a, b, r, over) => Levels(a, b) && (r.Count? <==> over.None?)
    case RangePx(_, p1, p2, r, over) => p1 <= p2 && (r.Count? <==> over.None?)
    case Cum(_, n, _) => 1 <= n <= INT_MAX
    case Vwap(_, a, b) => Levels(a, b)
    case VwapPx(_, p1, p2) => p1 <= p2
    case Imbalance(a, b) => Levels(a, b)
    case ImbalancePx(p1, p2) => p1 <= p2
    case Meta(f) => FieldOk(f)
  }

  // ---------- Prices ----------

  predicate IsNumeric(c: char) {
    IsDigit(c) || c == '+' || c == '-' || c == '.' || c == 'e'
  }

  predicate Numeric(s: string) {
    forall i :: 0 <= i < |s| ==> IsNumeric(s[i])
  }

  /** Doubles are shown with digits, signs, a decimal point and an exponent. */
  ghost predicate ShowsNumbers(d: Decimals) {
    forall p :: Numeric(d.show(p))
  }

  /** The shown price is one token, without a decimal point inside, and reads back. */
  predicate PriceReads(d: Decimals, p: real) {
    var t := Split(d.show(p), '.');
    |t| == 1 && d.read(t[0]) == Some(p)
  }

  predicate BandReads(d: Decimals, p1: real, p2: real) {
    var t := Split(BandText(d, p1, p2), '.');
    |t| == 1 && ParseBand(d, t[0]) == Some((p1, p2))
  }

  /** The price operands of a key, if any, survive printing. */
  predicate Reads(d: Decimals, m: Metric) {
    match m
    case LevelPx(_, p, _) => PriceReads(d, p)
    case RangePx(_, p1, p2, _, _) => BandReads(d, p1, p2)
    case VwapPx(_, p1, p2) => BandReads(d, p1, p2)
    case ImbalancePx(p1, p2) => BandReads(d, p1, p2)
    case _ => true
  }

  predicate IsSuffix(t: string) {
    t == "per" || t == "agg"
  }

  /** A per-order meta key whose field ends in `per` or `agg` loses that token to the mode suffix. */
  predicate EndsInSuffix(k: ObKey) {
    k.metric.Meta? && k.mode == Per && var t := Split(k.metric.field, '.'); t != [] && IsSuffix(t[|t| - 1])
  }

  predicate Priced(m: Metric) {
    m.LevelPx? || m.RangePx? || m.VwapPx? || m.ImbalancePx?
  }

  /** The tokens of a printed key: a count's empty last piece leaves none, a price or a meta field may leave several. */
  function KeyTokens(d: Decimals, m: Metric): seq<string> {
    match m
    case RangeIdx(s, a, b, r, _) => if r.Count? then Pieces(d, m)[..5] else Pieces(d, m)
    case LevelPx(s, p, t) => ["at", SideText(s)] + Split(d.show(p), '.') + [TargetText(t)]
    case RangePx(s, p1, p2, r, over) =>
      ["range", SideText(s), "price"] + Split(BandText(d, p1, p2), '.')
      + if r.Count? then [ReduceText(r)] else [ReduceText(r), OverText(r, over)]
    case VwapPx(s, p1, p2) => ["vwap", SideText(s), "price"] + Split(BandText(d, p1, p2), '.')
    case ImbalancePx(p1, p2) => ["imbalance", "price"] + Split(BandText(d, p1, p2), '.')
    case Meta(f) => ["meta"] + Split(f, '.')
    case _ => Pieces(d, m)
  }

  lemma PrintedIsPlain(n: int, sep: char)
    requires 1 <= n && !IsDigit(sep)
    ensures PrintInt(n) != "" && Plain(PrintInt(n), sep)
  {
    PrintNatDigits(n);
  }

  lemma RangeIsPlain(a: int, b: int)
    requires 1 <= a && 1 <= b
    ensures RangeText(a, b) != "" && Plain(RangeText(a, b), '.')
  {
    PrintedIsPlain(a, '.');
    PrintedIsPlain(b, '.');
  }

  /** One piece that may hold dots, between pieces that hold none. */
  lemma MiddleTokens(pre: seq<string>, x: string, post: seq<string>)
    requires forall i :: 0 <= i < |pre| ==> pre[i] != "" && Plain(pre[i], '.')
    requires forall i :: 0 <= i < |post| ==> post[i] != "" && Plain(post[i], '.')
    ensures Tokens(pre + [x] + post) == pre + Split(x, '.') + post
  {
    TokensAppend(pre + [x], post);
    TokensAppend(pre, [x]);
    TokensPlain(pre);
    TokensPlain(post);
    OnePiece(x);
  }

  lemma OnePiece(x: string)
    ensures Tokens([x]) == Split(x, '.')
  {
    assert [x][1..] == [];
    assert Split(x, '.') + [] == Split(x, '.');
  }

  lemma CountTokens(ps: seq<string>)
    ensures Tokens(ps + [""]) == Tokens(ps)
  {
    TokensAppend(ps, [""]);
    SplitPlain("", '.');
    assert [""][1..] == [];
  }

  lemma RangeTokens(d: Decimals, m: Metric)
    requires WellFormed(m) && m.RangeIdx?
    ensures Tokens(Pieces(d, m)) == KeyTokens(d, m)
  {
    RangeIsPlain(m.a, m.b);
    if m.reduce.Count? {
      CountTokens(Pieces(d, m)[..5]);
      TokensPlain(Pieces(d, m)[..5]);
      assert Pieces(d, m) == Pieces(d, m)[..5] + [""];
    } else {
      TokensPlain(Pieces(d, m));
    }
  }

  lemma BandTokens(d: Decimals, m: Metric)
    requires WellFormed(m) && m.RangePx?
    ensures Tokens(Pieces(d, m)) == KeyTokens(d, m)
  {
    var pre, x := ["range", SideText(m.side), "price"], BandText(d, m.p1, m.p2);
    if m.reduce.Count? {
      MiddleTokens(pre, x, [ReduceText(m.reduce)]);
      CountTokens(pre + [x] + [ReduceText(m.reduce)]);
      assert Pieces(d, m) == pre + [x] + [ReduceText(m.reduce)] + [""];
    } else {
      MiddleTokens(pre, x, [ReduceText(m.reduce), OverText(m.reduce, m.over)]);
      assert Pieces(d, m) == pre + [x] + [ReduceText(m.reduce), OverText(m.reduce, m.over)];
    }
  }

  lemma PricedTokens(d: Decimals, m: Metric)
    requires WellFormed(m) && Priced(m)
    ensures Tokens(Pieces(d, m)) == KeyTokens(d, m)
  {
    match m
    case LevelPx(s, p, t) =>
      MiddleTokens(["at", SideText(s)], d.show(p), [TargetText(t)]);
      assert Pieces(d, m) == ["at", SideText(s)] + [d.show(p)] + [TargetText(t)];
    case RangePx(_, _, _, _, _) => BandTokens(d, m);
    case VwapPx(s, p1, p2) =>
      MiddleTokens(["vwap", SideText(s), "price"], BandText(d, p1, p2), []);
      assert Pieces(d, m) == ["vwap", SideText(s), "price"] + [BandText(d, p1, p2)] + [];
    case ImbalancePx(p1, p2) =>
      MiddleTokens(["imbalance", "price"], BandText(d, p1, p2), []);
      assert Pieces(d, m) == ["imbalance", "price"] + [BandText(d, p1, p2)] + [];
  }

  lemma PieceTokens(d: Decimals, m: Metric)
    requires WellFormed(m)
    ensures Tokens(Pieces(d, m)) == KeyTokens(d, m)
  {
    if m.Meta? {
      MiddleTokens(["meta"], m.field, []);
      assert Pieces(d, m) == ["meta"] + [m.field] + [];
    } else if m.RangeIdx? {
      RangeTokens(d, m);
    } else if Priced(m) {
      PricedTokens(d, m);
    } else {
      match m {
        case LevelIdx(_, n, _) => PrintedIsPlain(n, '.');
        case Cum(_, n, _) => PrintedIsPlain(n, '.');
        case Vwap(_, a, b) => RangeIsPlain(a, b);
        case Imbalance(a, b) => RangeIsPlain(a, b);
        case _ =>
      }
      TokensPlain(Pieces(d, m));
    }
  }

  lemma WordsParse(s: Side, t: Target, r: Reduce)
    ensures ParseSide(SideText(s)) == Some(s) && ParseTarget(TargetText(t)) == Some(t)
    ensures ParseReduce(ReduceText(r)) == Some(r)
  {
    LowerSame(SideText(s));
    LowerSame(TargetText(t));
    LowerSame(ReduceText(r));
  }

  lemma ReductionParses(d: Decimals, m: Metric)
    requires WellFormed(m) && m.RangeIdx?
    ensures var t := ["ob"] + KeyTokens(d, m);
      (|t| == 6 || |t| == 7) && ParseReduction(t) == Some((m.reduce, m.over))
  {
    WordsParse(m.side, if m.over.Some? then m.over.value else Price, m.reduce);
  }

  lemma RangeTokensParse(d: Decimals, m: Metric)
    requires WellFormed(m) && m.RangeIdx?
    ensures ParseMetric(d, ["ob"] + KeyTokens(d, m)) == Some(m)
  {
    ReductionParses(d, m);
    WordsParse(m.side, Price, Sum);
    ParsePrintedRange(m.a, m.b);
    var t := ["ob"] + KeyTokens(d, m);
    assert t[1] == "range" && t[2] == SideText(m.side) && t[3] == "levels" && t[4] == RangeText(m.a, m.b);
  }

  lemma LevelTokensParse(d: Decimals, m: Metric)
    requires WellFormed(m) && (m.LevelIdx? || m.Cum? || m.Best?)
    ensures ParseMetric(d, ["ob"] + KeyTokens(d, m)) == Some(m)
  {
    match m
    case Best(s, a) => WordsParse(s, a, Sum);
    case LevelIdx(s, n, a) => WordsParse(s, a, Sum); ParsePrinted(n);
    case Cum(s, n, a) => WordsParse(s, a, Sum); ParsePrinted(n);
  }

  /** Numeric text split at dots is numeric, and no word of the language. */
  lemma {:induction false} NumericTokens(s: string, cur: string)
    requires Numeric(s) && Numeric(cur)
    ensures forall i :: 0 <= i < |SplitFrom(s, '.', cur)| ==>
      SplitFrom(s, '.', cur)[i] != "" && Numeric(SplitFrom(s, '.', cur)[i])
  {
    if s != [] {
      if s[0] == '.' { NumericTokens(s[1..], []); } else { NumericTokens(s[1..], cur + [s[0]]); }
    }
  }

  lemma NumericIsNoWord(s: string)
    requires s != "" && Numeric(s)
    ensures !IsSuffix(s) && ParseReduce(s) == None
  {
    assert Lower(s)[0] == s[0];
  }

  lemma LevelPxParsesIff(d: Decimals, m: Metric)
    requires m.LevelPx?
    ensures ParseMetric(d, ["ob"] + KeyTokens(d, m)) == Some(m) <==> Reads(d, m)
  {
    WordsParse(m.side, m.target, Sum);
    var t, x := ["ob"] + KeyTokens(d, m), Split(d.show(m.px), '.');
    assert |t| == 4 + |x| && t[1] == "at" && t[2] == SideText(m.side);
    if |x| == 1 { assert t[3] == x[0] && t[4] == TargetText(m.target); }
  }

  lemma RangePxParsesIff(d: Decimals, m: Metric)
    requires WellFormed(m) && m.RangePx? && ShowsNumbers(d)
    ensures ParseMetric(d, ["ob"] + KeyTokens(d, m)) == Some(m) <==> Reads(d, m)
  {
    WordsParse(m.side, if m.over.Some? then m.over.value else Price, m.reduce);
    var t, x := ["ob"] + KeyTokens(d, m), Split(BandText(d, m.p1, m.p2), '.');
    NumericTokens(BandText(d, m.p1, m.p2), []);
    assert |t| == 4 + |x| + (if m.reduce.Count? then 1 else 2);
    assert t[1] == "range" && t[2] == SideText(m.side) && t[3] == "price";
    if |x| == 1 {
      assert t[4] == x[0] && t[5] == ReduceText(m.reduce);
      if !m.reduce.Count? { assert t[6] == OverText(m.reduce, m.over); }
    } else if |x| == 2 {
      assert t[5] == x[1];
      NumericIsNoWord(x[1]);
    } else {
      BandNotEmpty(d, m.p1, m.p2);
    }
  }

  /** A band always holds its dash, so it leaves at least one token. */
  lemma BandNotEmpty(d: Decimals, p1: real, p2: real)
    ensures Split(BandText(d, p1, p2), '.') != []
  {
    DashKeeps(d.show(p1), d.show(p2), []);
  }

  lemma {:induction false} DashKeeps(x: string, y: string, cur: string)
    ensures SplitFrom(x + "-" + y, '.', cur) != []
  {
    var s := x + "-" + y;
    if x == [] {
      assert s[0] == '-' && s[1..] == y;
      CurKeeps(y, cur + ['-']);
    } else {
      assert s[0] == x[0] && s[1..] == x[1..] + "-" + y;
      DashKeeps(x[1..], y, if x[0] == '.' then [] else cur + [x[0]]);
    }
  }

  lemma {:induction false} CurKeeps(s: string, cur: string)
    requires cur != []
    ensures SplitFrom(s, '.', cur) != []
  {
    if s != [] && s[0] != '.' { CurKeeps(s[1..], cur + [s[0]]); }
  }

  lemma TailBandParsesIff(d: Decimals, m: Metric)
    requires m.VwapPx? || m.ImbalancePx?
    ensures ParseMetric(d, ["ob"] + KeyTokens(d, m)) == Some(m) <==> Reads(d, m)
  {
    if m.VwapPx? { WordsParse(m.side, Price, Sum); }
    var t, x := ["ob"] + KeyTokens(d, m), Split(BandText(d, m.p1, m.p2), '.');
    if m.VwapPx? {
      assert |t| == 4 + |x| && t[1] == "vwap" && t[2] == SideText(m.side) && t[3] == "price";
      if |x| == 1 { assert t[4] == x[0]; }
    } else {
      assert |t| == 3 + |x| && t[1] == "imbalance" && t[2] == "price";
      if |x| == 1 { assert t[3] == x[0]; }
    }
  }

  /** The tokens of a well-formed metric parse back exactly when its price operands survive printing. */
  lemma TokensParseIff(d: Decimals, m: Metric)
    requires WellFormed(m) && (Priced(m) ==> ShowsNumbers(d))
    ensures ParseMetric(d, ["ob"] + KeyTokens(d, m)) == Some(m) <==> Reads(d, m)
  {
    match m
    case Spread =>
    case Mid =>
    case Best(_, _) => LevelTokensParse(d, m);
    case LevelIdx(_, _, _) => LevelTokensParse(d, m);
    case LevelPx(_, _, _) => LevelPxParsesIff(d, m);
    case Cum(_, _, _) => LevelTokensParse(d, m);
    case RangeIdx(_, _, _, _, _) => RangeTokensParse(d, m);
    case RangePx(_, _, _, _, _) => RangePxParsesIff(d, m);
    case Vwap(s, a, b) => WordsParse(s, Price, Sum); ParsePrintedRange(a, b);
    case VwapPx(_, _, _) => TailBandParsesIff(d, m);
    case Imbalance(a, b) => ParsePrintedRange(a, b);
    case ImbalancePx(_, _) => TailBandParsesIff(d, m);
    case Meta(f) =>
      var t := ["ob"] + KeyTokens(d, m);
      assert t[1] == "meta" && t[2..] == Split(f, '.');
  }

  lemma FormatTokens(d: Decimals, k: ObKey)
    requires WellFormed(k.metric)
    ensures Split(FormatKey(d, k), '.')
         == ["ob"] + KeyTokens(d, k.metric) + (if k.mode == Agg then ["agg"] else [])
  {
    var suffix := if k.mode == Agg then ["agg"] else [];
    SplitJoin(["ob"] + Pieces(d, k.metric) + suffix);
    TokensAppend(["ob"] + Pieces(d, k.metric), suffix);
    TokensAppend(["ob"], Pieces(d, k.metric));
    TokensPlain(["ob"]);
    TokensPlain(suffix);
    PieceTokens(d, k.metric);
  }

  /** The suffix is read as the mode and the rest as the metric, so a key survives exactly when its operands do. */
  lemma SuffixedRoundTrip(d: Decimals, k: ObKey)
    requires WellFormed(k.metric) && (Priced(k.metric) ==> ShowsNumbers(d)) && !EndsInSuffix(k)
    ensures ParseKey(d, FormatKey(d, k)) == Some(k) <==> Reads(d, k.metric)
  {
    FormatTokens(d, k);
    TokensParseIff(d, k.metric);
    var body := ["ob"] + KeyTokens(d, k.metric);
    var t := Split(FormatKey(d, k), '.');
    if k.mode == Agg {
      assert t[..|t| - 1] == body;
    } else {
      assert t == body;
      LastToken(d, k.metric);
    }
  }

  /** Printing a key without price operands and parsing it gives it back. */
  lemma RoundTrip(d: Decimals, k: ObKey)
    requires WellFormed(k.metric) && !Priced(k.metric) && !EndsInSuffix(k)
    ensures ParseKey(d, FormatKey(d, k)) == Some(k)
  {
    SuffixedRoundTrip(d, k);
  }

  lemma LastToken(d: Decimals, m: Metric)
    requires WellFormed(m) && (Priced(m) ==> ShowsNumbers(d))
    ensures |KeyTokens(d, m)| > 0
    ensures !m.Meta? ==> !IsSuffix(KeyTokens(d, m)[|KeyTokens(d, m)| - 1])
  {
    match m
    case Vwap(_, a, b) => PrintNatDigits(a); assert IsDigit(RangeText(a, b)[0]);
    case Imbalance(a, b) => PrintNatDigits(a); assert IsDigit(RangeText(a, b)[0]);
    case VwapPx(_, p1, p2) => LastOfBand(d, p1, p2);
    case ImbalancePx(p1, p2) => LastOfBand(d, p1, p2);
    case _ =>
  }

  lemma LastOfBand(d: Decimals, p1: real, p2: real)
    requires ShowsNumbers(d)
    ensures var x := Split(BandText(d, p1, p2), '.');
      x != [] && !IsSuffix(x[|x| - 1])
  {
    var x := Split(BandText(d, p1, p2), '.');
    BandNotEmpty(d, p1, p2);
    NumericTokens(BandText(d, p1, p2), []);
    NumericIsNoWord(x[|x| - 1]);
  }

  // ---------- And only those ----------

  lemma ParsedIntIsSmall(s: string)
    ensures ParseInt(s).Some? ==> ParseInt(s).value <= INT_MAX
  {
  }

  lemma ParsedLevels(s: string)
    ensures ParseRange(s).Some? ==> Levels(ParseRange(s).value.0, ParseRange(s).value.1)
    ensures ParseLevels(s).Some? ==> Levels(ParseLevels(s).value.0, ParseLevels(s).value.1)
  {
    ParsedIntIsSmall(s);
    var ab := Split(s, '-');
    if |ab| == 2 {
      ParsedIntIsSmall(ab[0]);
      ParsedIntIsSmall(ab[1]);
    }
  }

  lemma ParsedMeta(a: string)
    requires a != "" && Plain(a, '.')
    ensures FieldOk(a) && FieldOk("levels." + a)
  {
    SplitPlain(a, '.');
    SplitPlain("levels", '.');
    SplitTwo("levels", a, '.');
    assert "levels." + a == "levels" + ['.'] + a;
  }

  lemma ParsedReduction(t: seq<string>)
    requires |t| == 6 || |t| == 7
    ensures ParseReduction(t).Some? ==> (ParseReduction(t).value.0.Count? <==> ParseReduction(t).value.1.None?)
  {
  }

  /** Whatever the text, a key that parses is well formed. */
  lemma ParsedIsWellFormed(d: Decimals, s: string)
    ensures ParseKey(d, s).Some? ==> WellFormed(ParseKey(d, s).value.metric)
  {
    var all := Split(s, '.');
    SplitFromTokens(s, '.', []);
    if ParseKey(d, s).Some? {
      var t := if |all| >= 2 && IsSuffix(all[|all| - 1]) then all[..|all| - 1] else all;
      assert ParseMetric(d, t) == Some(ParseKey(d, s).value.metric);
      ParsedMetricIsWellFormed(d, t);
    }
  }

  lemma ParsedMetricIsWellFormed(d: Decimals, t: seq<string>)
    requires forall i :: 0 <= i < |t| ==> t[i] != "" && Plain(t[i], '.')
    ensures ParseMetric(d, t).Some? ==> WellFormed(ParseMetric(d, t).value)
  {
    var m := ParseMetric(d, t);
    if m.Some? {
      match m.value
      case LevelIdx(_, _, _) => ParsedIntIsSmall(t[3]);
      case RangeIdx(_, _, _, _, _) => ParsedLevels(t[4]); ParsedReduction(t);
      case RangePx(_, _, _, _, _) => ParsedReduction(t);
      case Cum(_, _, _) => ParsedIntIsSmall(t[4]);
      case Vwap(_, _, _) => ParsedLevels(t[4]);
      case Imbalance(_, _) => ParsedLevels(t[3]);
      case Meta(_) => ParsedMeta(t[|t| - 1]);
      case _ =>
    }
  }

  lemma SuffixIsLost(d: Decimals, k: ObKey)
    requires WellFormed(k.metric) && EndsInSuffix(k)
    ensures ParseKey(d, FormatKey(d, k)) != Some(k)
  {
    FormatTokens(d, k);
    var ft := Split(k.metric.field, '.');
    var t := Split(FormatKey(d, k), '.');
    assert t == ["ob", "meta"] + ft;
    assert t[|t| - 1] == ft[|ft| - 1];
  }

  /**
   * Parsing a printed key gives it back exactly when it is well formed, does
   * not end in a mode suffix, and shows its prices as single tokens that read back.
   */
  lemma RoundTripIff(d: Decimals, k: ObKey)
    requires Priced(k.metric) ==> ShowsNumbers(d)
    ensures ParseKey(d, FormatKey(d, k)) == Some(k)
       <==> WellFormed(k.metric) && !EndsInSuffix(k) && Reads(d, k.metric)
  {
    if !WellFormed(k.metric) {
      ParsedIsWellFormed(d, FormatKey(d, k));
    } else if EndsInSuffix(k) {
      SuffixIsLost(d, k);
    } else {
      SuffixedRoundTrip(d, k);
    }
  }

  /** Whatever the text, printing what it parses to and parsing again changes nothing, with the same exceptions. */
  lemma PrintAfterParseIff(d: Decimals, s: string)
    requires ParseKey(d, s).Some? && (Priced(ParseKey(d, s).value.metric) ==> ShowsNumbers(d))
    ensures var k := ParseKey(d, s).value;
      ParseKey(d, FormatKey(d, k)) == ParseKey(d, s) <==> !EndsInSuffix(k) && Reads(d, k.metric)
  {
    ParsedIsWellFormed(d, s);
    RoundTripIff(d, ParseKey(d, s).value);
  }

  /** The per-order key for a meta field named `per` prints as `ob.meta.per` and does not parse back. */
  lemma SuffixExample(d: Decimals)
    ensures ParseKey(d, FormatKey(d, ObKey(Meta("per"), Per))) != Some(ObKey(Meta("per"), Per))
    ensures ParseKey(d, FormatKey(d, ObKey(Meta("per"), Agg))) == Some(ObKey(Meta("per"), Agg))
  {
    SplitPlain("per", '.');
    RoundTripIff(d, ObKey(Meta("per"), Per));
    RoundTripIff(d, ObKey(Meta("per"), Agg));
  }

  /** A price shown with a decimal point is cut in two by the parser: `ob.at.bid.100.5.size` is no key. */
  lemma DecimalPointExample(d: Decimals, k: ObKey)
    requires ShowsNumbers(d) && d.show(100.5) == "100.5" && k == ObKey(LevelPx(Bid, 100.5, Size), Per)
    ensures ParseKey(d, FormatKey(d, k)) != Some(k)
  {
    assert "100.5" == "100" + ['.'] + "5";
    SplitTwo("100", "5", '.');
    SplitPlain("100", '.');
    SplitPlain("5", '.');
    RoundTripIff(d, k);
  }

  // ---------- Forms the printer never writes ----------

  /** The key text of these pieces. */
  lemma PlainText(ps: seq<string>)
    requires forall i :: 0 <= i < |ps| ==> ps[i] != "" && Plain(ps[i], '.')
    ensures Split(Join(ps), '.') == ps
  {
    SplitJoin(ps);
    TokensPlain(ps);
  }

  /** A key written in plain tokens, the last of which is no mode suffix, is read token by token. */
  lemma PlainKey(d: Decimals, ps: seq<string>)
    requires forall i :: 0 <= i < |ps| ==> ps[i] != "" && Plain(ps[i], '.')
    requires |ps| >= 2 && ps[0] == "ob" && !IsSuffix(ps[|ps| - 1])
    ensures var m := ParseMetric(d, ps);
      ParseKey(d, Join(ps)) == if m.None? then None else Some(ObKey(m.value, Per))
  {
    PlainText(ps);
  }

  lemma NumberIsPlain(n: int)
    requires 1 <= n
    ensures PrintInt(n) != "" && Plain(PrintInt(n), '.') && !IsSuffix(PrintInt(n))
  {
    PrintNatDigits(n);
    assert IsDigit(PrintNat(n)[0]);
    forall i | 0 <= i < |PrintNat(n)| ensures PrintNat(n)[i] != '.' { assert IsDigit(PrintNat(n)[i]); }
  }

  lemma VwapNumberParses(d: Decimals, side: Side, n: int)
    requires 1 <= n <= INT_MAX
    ensures ParseMetric(d, ["ob", "vwap", SideText(side), "levels", PrintInt(n)]) == Some(Vwap(side, 1, n))
  {
    ParsePrinted(n);
    WordsParse(side, Price, Sum);
  }

  lemma ImbalanceNumberParses(d: Decimals, n: int)
    requires 1 <= n <= INT_MAX
    ensures ParseMetric(d, ["ob", "imbalance", "levels", PrintInt(n)]) == Some(Imbalance(1, n))
  {
    ParsePrinted(n);
  }

  lemma SideIsPlain(side: Side)
    ensures SideText(side) != "" && Plain(SideText(side), '.')
  {
  }

  /** A single level number in an average stands for the range from 1, which is what its key prints as. */
  lemma VwapOfOneNumber(d: Decimals, side: Side, n: int)
    requires 1 <= n <= INT_MAX
    ensures ParseKey(d, Join(["ob", "vwap", SideText(side), "levels", PrintInt(n)]))
         == Some(ObKey(Vwap(side, 1, n), Per))
    ensures ParseKey(d, FormatKey(d, ObKey(Vwap(side, 1, n), Per))) == Some(ObKey(Vwap(side, 1, n), Per))
  {
    SideIsPlain(side);
    NumberIsPlain(n);
    PlainKey(d, ["ob", "vwap", SideText(side), "levels", PrintInt(n)]);
    VwapNumberParses(d, side, n);
    RoundTrip(d, ObKey(Vwap(side, 1, n), Per));
  }

  /** And in an imbalance. */
  lemma ImbalanceOfOneNumber(d: Decimals, n: int)
    requires 1 <= n <= INT_MAX
    ensures ParseKey(d, Join(["ob", "imbalance", "levels", PrintInt(n)])) == Some(ObKey(Imbalance(1, n), Per))
    ensures ParseKey(d, FormatKey(d, ObKey(Imbalance(1, n), Per))) == Some(ObKey(Imbalance(1, n), Per))
  {
    NumberIsPlain(n);
    PlainKey(d, ["ob", "imbalance", "levels", PrintInt(n)]);
    ImbalanceNumberParses(d, n);
    RoundTrip(d, ObKey(Imbalance(1, n), Per));
  }

  /** A per-order key with its mode written out parses to itself, even where the bare form does not. */
  lemma ExplicitPer(d: Decimals, m: Metric)
    requires WellFormed(m) && (Priced(m) ==> ShowsNumbers(d))
    ensures ParseKey(d, FormatKey(d, ObKey(m, Per)) + ".per") == Some(ObKey(m, Per)) <==> Reads(d, m)
  {
    var text := FormatKey(d, ObKey(m, Per));
    assert text + ".per" == text + ['.'] + "per";
    SplitTwo(text, "per", '.');
    SplitPlain("per", '.');
    FormatTokens(d, ObKey(m, Per));
    TokensParseIff(d, m);
    var body, t := ["ob"] + KeyTokens(d, m), Split(text + ".per", '.');
    assert t == body + ["per"];
    assert t[..|t| - 1] == body;
  }

  lemma LowerTwice(s: string)
    ensures Lower(Lower(s)) == Lower(s)
  {
  }

  /** Sides, targets and reducers are read in any case. */
  lemma AnyCase(s: string, t: string)
    requires Lower(s) == Lower(t)
    ensures ParseSide(s) == ParseSide(t) && ParseTarget(s) == ParseTarget(t) && ParseReduce(s) == ParseReduce(t)
  {
  }
}
