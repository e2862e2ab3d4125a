/**
 * Request trees of `Worker`, `VectorReducer`, `Chain` and `GroupSplit` nodes.
 * Building links nodes from the last stage to the first; a value is pushed
 * depth first through the links. Reducers come from a registry and may throw
 * (`None`). Nodes are modelled before shutdown; the downstream terminal is the
 * list of samples it receives.
 */
module Pipeline {
  import opened Seqs

  const MAX_ACC := 1000
  const MAX_SYMBOLS := 10000
  const MAX_CHILDREN := 10000

  datatype Value =
    | Flag(flag: bool) | Whole(whole: int) | Num(num: real) | Text(text: string)
    | Wholes(wholes: seq<int>) | Nums(nums: seq<real>) | Many(many: seq<Value>)

  datatype Sample = Sample(symbol: string, value: Value)

  type Func = seq<real> -> Option<real>
  type ParamFunc = (seq<real>, map<string, real>) -> Option<real>
  type Reducer = seq<Value> -> Option<Value>

  datatype Registry = Registry(plain: map<string, Func>, parametric: map<string, ParamFunc>)

  datatype Spec =
    | WorkerSpec(fn: string, params: map<string, real>)
    | ReducerSpec(fn: string)
    | ChainSpec(stages: seq<Spec>)
    | UnknownSpec

  /** A built node and, through `down`, everything after it. */
  datatype Node =
    | Terminal
    | WorkerNode(fn: Reducer, acc: map<string, seq<Value>>, down: Node)
    | ReducerNode(func: Func, down: Node)

  // ---------- Building ----------

  function ToReal(v: Value): real {
    match v
    case Flag(b) => if b then 1.0 else 0.0
    case Whole(i) => i as real
    case Num(r) => r
    case _ => 0.0
  }

  function ToReals(xs: seq<Value>): seq<real> {
    seq(|xs|, i requires 0 <= i < |xs| => ToReal(xs[i]))
  }

  function AsNum(r: Option<real>): Option<Value> {
    if r.Some? then Some(Num(r.value)) else None
  }

  /** The function a Worker spec names; a parametric registration wins over a plain one. */
  function WorkerFn(reg: Registry, fn: string, params: map<string, real>): Option<Reducer> {
    if fn in reg.parametric then
      var f := reg.parametric[fn];
      Some(xs => AsNum(f(ToReals(xs), params)))
    else if fn in reg.plain then
      var f := reg.plain[fn];
      Some(xs => AsNum(f(ToReals(xs))))
    else None
  }

  /** `None` is a build error. */
  function Build(reg: Registry, spec: Spec, down: Node): Option<Node>
    decreases spec
  {
    match spec
    case WorkerSpec(fn, params) =>
      var f := WorkerFn(reg, fn, params);
      if f.None? then None else Some(WorkerNode(f.value, map[], down))
    case ReducerSpec(fn) => if fn in reg.plain then Some(ReducerNode(reg.plain[fn], down)) else None
    case ChainSpec(stages) => if stages == [] then None else BuildAll(reg, stages, down)
    case UnknownSpec => None
  }

  function BuildAll(reg: Registry, stages: seq<Spec>, down: Node): Option<Node>
    decreases stages
  {
    if stages == [] then Some(down) else
    var rest := BuildAll(reg, stages[1..], down);
    if rest.None? then None else Build(reg, stages[0], rest.value)
  }

  /** The pipeline loop: from the last stage to the first, each wired to the one built before it. */
  method BuildPipeline(reg: Registry, stages: seq<Spec>, terminal: Node) returns (r: Option<Node>)
    ensures r == BuildAll(reg, stages, terminal)
  {
    var curDown := terminal;
    var i := |stages|;
    while i > 0
      invariant 0 <= i <= |stages|
      invariant BuildAll(reg, stages[i..], terminal) == Some(curDown)
    {
      var built := Build(reg, stages[i - 1], curDown);
      assert stages[i - 1..][1..] == stages[i..];
      if built.None? {
        BuildAllFails(reg, stages, i - 1, terminal);
        return None;
      }
      curDown := built.value;
      i := i - 1;
    }
    assert stages[0..] == stages;
    return Some(curDown);
  }

  /** One stage that does not build fails the whole pipeline. */
  lemma {:induction false} BuildAllFails(reg: Registry, stages: seq<Spec>, i: nat, down: Node)
    requires i <= |stages| && BuildAll(reg, stages[i..], down) == None
    ensures BuildAll(reg, stages, down) == None
  {
    if i == 0 {
      assert stages[0..] == stages;
    } else {
      assert stages[1..][i - 1..] == stages[i..];
      BuildAllFails(reg, stages[1..], i - 1, down);
    }
  }

  // ---------- Flattening nested chains ----------

  /** The leaf specs in the order data flows through them. */
  function Leaves(spec: Spec): seq<Spec>
    decreases spec
  {
    if spec.ChainSpec? then AllLeaves(spec.stages) else [spec]
  }

  function AllLeaves(stages: seq<Spec>): seq<Spec>
    decreases stages
  {
    if stages == [] then [] else Leaves(stages[0]) + AllLeaves(stages[1..])
  }

  predicate HasEmptyChain(spec: Spec)
    decreases spec
  {
    spec.ChainSpec? && (spec.stages == [] || AnyEmptyChain(spec.stages))
  }

  predicate AnyEmptyChain(stages: seq<Spec>)
    decreases stages
  {
    stages != [] && (HasEmptyChain(stages[0]) || AnyEmptyChain(stages[1..]))
  }

  lemma {:induction false} BuildAllAppend(reg: Registry, a: seq<Spec>, b: seq<Spec>, down: Node)
    ensures BuildAll(reg, a + b, down)
         == var d := BuildAll(reg, b, down); if d.None? then None else BuildAll(reg, a, d.value)
  {
    if a == [] {
      assert a + b == b;
    } else {
      assert (a + b)[1..] == a[1..] + b;
      BuildAllAppend(reg, a[1..], b, down);
    }
  }

  /** Nesting is invisible: a spec builds what the flat list of its leaves builds, unless some chain is empty. */
  lemma {:induction false} FlatteningKeepsBuild(reg: Registry, spec: Spec, down: Node)
    ensures Build(reg, spec, down) == if HasEmptyChain(spec) then None else BuildAll(reg, Leaves(spec), down)
    decreases spec
  {
    if spec.ChainSpec? {
      FlatteningKeepsBuildAll(reg, spec.stages, down);
    } else {
      assert Leaves(spec)[1..] == [];
    }
  }

  lemma {:induction false} FlatteningKeepsBuildAll(reg: Registry, stages: seq<Spec>, down: Node)
    ensures BuildAll(reg, stages, down)
         == if AnyEmptyChain(stages) then None else BuildAll(reg, AllLeaves(stages), down)
    decreases stages
  {
    if stages != [] {
      FlatteningKeepsBuildAll(reg, stages[1..], down);
      BuildAllAppend(reg, Leaves(stages[0]), AllLeaves(stages[1..]), down);
      var rest := BuildAll(reg, stages[1..], down);
      if rest.Some? {
        FlatteningKeepsBuild(reg, stages[0], rest.value);
      }
    }
  }

  /** A Worker's function is registered with or without parameters, a VectorReducer's without. */
  predicate Registered(reg: Registry, leaf: Spec) {
    match leaf
    case WorkerSpec(fn, _) => fn in reg.parametric || fn in reg.plain
    case ReducerSpec(fn) => fn in reg.plain
    case _ => false
  }

  lemma {:induction false} LeavesBuildIff(reg: Registry, leaves: seq<Spec>, down: Node)
    requires forall i :: 0 <= i < |leaves| ==> !leaves[i].ChainSpec?
    ensures BuildAll(reg, leaves, down).Some? <==> forall i :: 0 <= i < |leaves| ==> Registered(reg, leaves[i])
  {
    if leaves != [] {
      var rest := leaves[1..];
      LeavesBuildIff(reg, rest, down);
      assert forall i :: 0 <= i < |rest| ==> rest[i] == leaves[i + 1];
      assert forall i :: 0 < i < |leaves| ==> leaves[i] == rest[i - 1];
    }
  }

  /** A pipeline builds exactly when every leaf's function is registered and no chain in it is empty. */
  lemma BuildsIff(reg: Registry, stages: seq<Spec>, down: Node)
    ensures BuildAll(reg, stages, down).Some? <==>
      !AnyEmptyChain(stages) && forall i :: 0 <= i < |AllLeaves(stages)| ==> Registered(reg, AllLeaves(stages)[i])
  {
    FlatteningKeepsBuildAll(reg, stages, down);
    LeavesAreFlat(stages);
    LeavesBuildIff(reg, AllLeaves(stages), down);
  }

  /** A parametric function runs with the spec's parameters, and wins over a plain one of the same name. */
  lemma WorkerRunsRegistered(reg: Registry, fn: string, params: map<string, real>, xs: seq<real>)
    requires Registered(reg, WorkerSpec(fn, params))
    ensures var vals := seq(|xs|, i requires 0 <= i < |xs| => Num(xs[i]));
      var f := WorkerFn(reg, fn, params);
      && f.Some?
      && f.value(vals) == AsNum(if fn in reg.parametric then reg.parametric[fn](xs, params) else reg.plain[fn](xs))
  {
    var vals := seq(|xs|, i requires 0 <= i < |xs| => Num(xs[i]));
    assert ToReals(vals) == xs;
  }

  // ---------- Running ----------

  function Accumulated(acc: map<string, seq<Value>>, sv: Sample): (r: seq<Value>)
    ensures |r| > 0
  {
    var vec := (if sv.symbol in acc then acc[sv.symbol] else []) + [sv.value];
    if |vec| > MAX_ACC then vec[|vec| - MAX_ACC..] else vec
  }

  /** One value into a Worker: drop at the symbol cap, accumulate, reduce, undo the push if the reducer throws. */
  function WorkerStep(fn: Reducer, acc: map<string, seq<Value>>, sv: Sample)
    : (map<string, seq<Value>>, Option<Sample>)
  {
    if sv.symbol !in acc && |acc| >= MAX_SYMBOLS then (acc, None)
    else
      var vec := Accumulated(acc, sv);
      var out := fn(vec);
      if out.None? then (acc[sv.symbol := vec[..|vec| - 1]], None)
      else (acc[sv.symbol := vec], Some(Sample(sv.symbol, out.value)))
  }

  function ReducerStep(func: Func, sv: Sample): Option<Sample> {
    if !sv.value.Nums? then None
    else
      var out := func(sv.value.nums);
      if out.None? then None else Some(Sample(sv.symbol, Num(out.value)))
  }

  /** Push one value in at the head; the second part is what the terminal receives. */
  function Deliver(n: Node, sv: Sample): (Node, seq<Sample>)
    decreases n
  {
    match n
    case Terminal => (n, [sv])
    case WorkerNode(fn, acc, down) =>
      var (acc', out) := WorkerStep(fn, acc, sv);
      if out.None? then (WorkerNode(fn, acc', down), [])
      else
        var (down', got) := Deliver(down, out.value);
        (WorkerNode(fn, acc', down'), got)
    case ReducerNode(func, down) =>
      var out := ReducerStep(func, sv);
      if out.None? then (n, [])
      else
        var (down', got) := Deliver(down, out.value);
        (ReducerNode(func, down'), got)
  }

  function DeliverAll(n: Node, input: seq<Sample>): (Node, seq<Sample>) {
    if input == [] then (n, []) else
    var k := |input| - 1;
    var (m, got) := DeliverAll(n, input[..k]);
    var (m', more) := Deliver(m, input[k]);
    (m', got + more)
  }

  // ---------- A pipeline is the composition of its stages' stream functions ----------

  function WorkerStream(fn: Reducer, acc: map<string, seq<Value>>, input: seq<Sample>)
    : (map<string, seq<Value>>, seq<Sample>)
  {
    if input == [] then (acc, []) else
    var k := |input| - 1;
    var (acc', outs) := WorkerStream(fn, acc, input[..k]);
    var (acc'', out) := WorkerStep(fn, acc', input[k]);
    (acc'', if out.None? then outs else outs + [out.value])
  }

  function ReducerStream(func: Func, input: seq<Sample>): seq<Sample> {
    if input == [] then [] else
    var k := |input| - 1;
    var out := ReducerStep(func, input[k]);
    if out.None? then ReducerStream(func, input[..k]) else ReducerStream(func, input[..k]) + [out.value]
  }

  /** Left to right: each leaf turns a whole stream into the next leaf's whole stream. */
  function Compose(reg: Registry, leaves: seq<Spec>, input: seq<Sample>): seq<Sample> {
    if leaves == [] then input else
    match leaves[0]
    case WorkerSpec(fn, params) =>
      var f := WorkerFn(reg, fn, params);
      if f.None? then [] else Compose(reg, leaves[1..], WorkerStream(f.value, map[], input).1)
    case ReducerSpec(fn) =>
      if fn !in reg.plain then [] else Compose(reg, leaves[1..], ReducerStream(reg.plain[fn], input))
    case _ => []
  }

  lemma {:induction false} DeliverAllPush(n: Node, input: seq<Sample>, sv: Sample)
    ensures DeliverAll(n, input + [sv])
         == var (m, got) := DeliverAll(n, input); var (m', more) := Deliver(m, sv); (m', got + more)
  {
    assert (input + [sv])[..|input|] == input;
  }

  /** Depth-first pushing through a Worker is feeding its whole output stream to the rest. */
  lemma {:induction false} WorkerThenRest(fn: Reducer, acc: map<string, seq<Value>>, down: Node, input: seq<Sample>)
    ensures DeliverAll(WorkerNode(fn, acc, down), input)
         == var (acc', mid) := WorkerStream(fn, acc, input); var (down', got) := DeliverAll(down, mid);
            (WorkerNode(fn, acc', down'), got)
  {
    if input != [] {
      var k := |input| - 1;
      WorkerThenRest(fn, acc, down, input[..k]);
      var (acc', mid) := WorkerStream(fn, acc, input[..k]);
      var out := WorkerStep(fn, acc', input[k]).1;
      if out.Some? {
        DeliverAllPush(down, mid, out.value);
      } else {
        assert DeliverAll(down, mid).1 + [] == DeliverAll(down, mid).1;
      }
    }
  }

  lemma {:induction false} ReducerThenRest(func: Func, down: Node, input: seq<Sample>)
    ensures DeliverAll(ReducerNode(func, down), input)
         == var (down', got) := DeliverAll(down, ReducerStream(func, input)); (ReducerNode(func, down'), got)
  {
    if input != [] {
      var k := |input| - 1;
      ReducerThenRest(func, down, input[..k]);
      var mid := ReducerStream(func, input[..k]);
      var out := ReducerStep(func, input[k]);
      if out.Some? {
        DeliverAllPush(down, mid, out.value);
      } else {
        assert DeliverAll(down, mid).1 + [] == DeliverAll(down, mid).1;
      }
    }
  }

  lemma {:induction false} TerminalReceives(input: seq<Sample>)
    ensures DeliverAll(Terminal, input) == (Terminal, input)
  {
    if input != [] {
      TerminalReceives(input[..|input| - 1]);
      assert input == input[..|input| - 1] + [input[|input| - 1]];
    }
  }

  lemma {:induction false} LeavesCompose(reg: Registry, leaves: seq<Spec>, input: seq<Sample>)
    requires BuildAll(reg, leaves, Terminal).Some? && forall i :: 0 <= i < |leaves| ==> !leaves[i].ChainSpec?
    ensures DeliverAll(BuildAll(reg, leaves, Terminal).value, input).1 == Compose(reg, leaves, input)
  {
    if leaves == [] {
      TerminalReceives(input);
    } else {
      var rest := BuildAll(reg, leaves[1..], Terminal).value;
      match leaves[0]
      case WorkerSpec(fn, params) =>
        var f := WorkerFn(reg, fn, params).value;
        WorkerThenRest(f, map[], rest, input);
        LeavesCompose(reg, leaves[1..], WorkerStream(f, map[], input).1);
      case ReducerSpec(fn) =>
        ReducerThenRest(reg.plain[fn], rest, input);
        LeavesCompose(reg, leaves[1..], ReducerStream(reg.plain[fn], input));
    }
  }

  lemma {:induction false} LeavesAreFlat(stages: seq<Spec>)
    ensures forall i :: 0 <= i < |AllLeaves(stages)| ==> !AllLeaves(stages)[i].ChainSpec?
    decreases stages
  {
    if stages != [] {
      LeavesAreFlat(stages[1..]);
      if stages[0].ChainSpec? {
        LeavesAreFlat(stages[0].stages);
        assert Leaves(stages[0]) == AllLeaves(stages[0].stages);
      }
    }
  }

  /**
   * Whatever the nesting, a pipeline that builds delivers to the terminal, on
   * every input stream, its leaves' stream functions composed in array order.
   */
  lemma PipelineComposes(reg: Registry, stages: seq<Spec>, input: seq<Sample>)
    requires BuildAll(reg, stages, Terminal).Some?
    ensures DeliverAll(BuildAll(reg, stages, Terminal).value, input).1 == Compose(reg, AllLeaves(stages), input)
  {
    FlatteningKeepsBuildAll(reg, stages, Terminal);
    LeavesAreFlat(stages);
    LeavesCompose(reg, AllLeaves(stages), input);
  }

  // ---------- What a reducer sees ----------

  /** The values of one symbol in a stream, in order. */
  function ValuesOf(input: seq<Sample>, s: string): seq<Value> {
    if input == [] then [] else
    var k := |input| - 1;
    ValuesOf(input[..k], s) + if input[k].symbol == s then [input[k].value] else []
  }

  /** The last thousand. */
  function Newest(l: seq<Value>): seq<Value> {
    if |l| <= 1000 then l else l[|l| - 1000..]
  }

  /** What the reducer is called with on the `n`th sample. */
  function SeenAt(input: seq<Sample>, n: nat): seq<Value>
    requires n < |input|
  {
    Newest(ValuesOf(input[..n + 1], input[n].symbol))
  }

  predicate NeverThrows(fn: Reducer, input: seq<Sample>) {
    forall n :: 0 <= n < |input| ==> fn(SeenAt(input, n)).Some?
  }

  /** The accumulators hold each symbol's newest values. */
  ghost predicate HoldsNewest(acc: map<string, seq<Value>>, input: seq<Sample>) {
    acc.Keys == SymbolsOf(input) && forall s :: s in acc ==> acc[s] == Newest(ValuesOf(input, s))
  }

  lemma {:induction false} NoValuesOf(input: seq<Sample>, s: string)
    requires s !in SymbolsOf(input)
    ensures ValuesOf(input, s) == []
  {
    if input != [] {
      var k := |input| - 1;
      assert forall i :: 0 <= i < k ==> input[..k][i] == input[i];
      assert input[k].symbol in SymbolsOf(input);
      assert SymbolsOf(input[..k]) <= SymbolsOf(input);
      NoValuesOf(input[..k], s);
    }
  }

  lemma NewestPush(l: seq<Value>, v: Value)
    ensures var vec := Newest(l) + [v];
      Newest(l + [v]) == if |vec| > MAX_ACC then vec[|vec| - MAX_ACC..] else vec
  {
  }

  lemma ValuesPush(input: seq<Sample>, sv: Sample, s: string)
    ensures ValuesOf(input + [sv], s) == ValuesOf(input, s) + if s == sv.symbol then [sv.value] else []
  {
    assert (input + [sv])[..|input|] == input;
  }

  lemma SymbolsPush(input: seq<Sample>, sv: Sample)
    ensures SymbolsOf(input + [sv]) == SymbolsOf(input) + {sv.symbol}
  {
    var all := input + [sv];
    assert forall i :: 0 <= i < |input| ==> all[i] == input[i];
    assert all[|input|] == sv;
    forall i | 0 <= i < |input| ensures input[i].symbol in SymbolsOf(all) { assert all[i].symbol in SymbolsOf(all); }
    assert all[|input|].symbol in SymbolsOf(all);
  }

  lemma HoldsNewestPush(acc: map<string, seq<Value>>, input: seq<Sample>, sv: Sample)
    requires HoldsNewest(acc, input)
    ensures HoldsNewest(acc[sv.symbol := Newest(ValuesOf(input + [sv], sv.symbol))], input + [sv])
  {
    SymbolsPush(input, sv);
    forall x | x in acc && x != sv.symbol ensures ValuesOf(input + [sv], x) == ValuesOf(input, x) {
      ValuesPush(input, sv, x);
      assert ValuesOf(input, x) + [] == ValuesOf(input, x);
    }
  }

  lemma AccumulatesNewest(acc: map<string, seq<Value>>, input: seq<Sample>, sv: Sample)
    requires HoldsNewest(acc, input)
    ensures Accumulated(acc, sv) == Newest(ValuesOf(input + [sv], sv.symbol))
  {
    if sv.symbol !in acc { NoValuesOf(input, sv.symbol); }
    ValuesPush(input, sv, sv.symbol);
    NewestPush(ValuesOf(input, sv.symbol), sv.value);
  }

  lemma HasRoom(acc: map<string, seq<Value>>, input: seq<Sample>, sv: Sample)
    requires acc.Keys == SymbolsOf(input) && |SymbolsOf(input + [sv])| <= MAX_SYMBOLS
    ensures sv.symbol in acc || |acc| < MAX_SYMBOLS
  {
    SymbolsPush(input, sv);
    assert |acc| == |acc.Keys|;
    if sv.symbol !in acc { SubsetSize(acc.Keys, acc.Keys + {sv.symbol}, sv.symbol); }
  }

  /** One sample more. */
  lemma WorkerSeesNext(fn: Reducer, acc: map<string, seq<Value>>, input: seq<Sample>, sv: Sample)
    requires HoldsNewest(acc, input) && |SymbolsOf(input + [sv])| <= MAX_SYMBOLS
    requires fn(Newest(ValuesOf(input + [sv], sv.symbol))).Some?
    ensures var (acc', out) := WorkerStep(fn, acc, sv);
      && HoldsNewest(acc', input + [sv])
      && out == Some(Sample(sv.symbol, fn(Newest(ValuesOf(input + [sv], sv.symbol))).value))
  {
    HasRoom(acc, input, sv);
    AccumulatesNewest(acc, input, sv);
    HoldsNewestPush(acc, input, sv);
  }

  /**
   * While no reduction throws and the symbol cap holds, a Worker reduces on
   * every sample exactly the last thousand values of its symbol, and passes
   * the result on under that symbol.
   */
  lemma {:induction false} WorkerSees(fn: Reducer, input: seq<Sample>)
    requires |SymbolsOf(input)| <= MAX_SYMBOLS && NeverThrows(fn, input)
    ensures var (acc, outs) := WorkerStream(fn, map[], input);
      && HoldsNewest(acc, input) && |outs| == |input|
      && forall n :: 0 <= n < |input| ==> outs[n] == Sample(input[n].symbol, fn(SeenAt(input, n)).value)
  {
    if input != [] {
      var k := |input| - 1;
      var pre, sv := input[..k], input[k];
      assert pre + [sv] == input && input[..k + 1] == input;
      forall n | 0 <= n < k ensures SeenAt(pre, n) == SeenAt(input, n) && pre[n] == input[n] {
        assert pre[..n + 1] == input[..n + 1];
      }
      assert SymbolsOf(pre) <= SymbolsOf(input) by {
        assert forall i :: 0 <= i < k ==> pre[i] == input[i];
      }
      SubsetKeepsCap(SymbolsOf(pre), SymbolsOf(input));
      WorkerSees(fn, pre);
      assert SeenAt(input, k) == Newest(ValuesOf(input, sv.symbol));
      WorkerSeesNext(fn, WorkerStream(fn, map[], pre).0, pre, sv);
    }
  }

  /** A Worker that knows 10,000 symbols passes every other one by. */
  lemma FullWorkerDrops(fn: Reducer, acc: map<string, seq<Value>>, sv: Sample)
    requires |acc| >= 10000 && sv.symbol !in acc
    ensures WorkerStep(fn, acc, sv) == (acc, None)
  {
  }

  /** A VectorReducer passes on, in order, the reduction of every vector that does not throw, and drops the rest. */
  lemma {:induction false} ReducerSees(func: Func, input: seq<Sample>)
    requires forall i :: 0 <= i < |input| ==> input[i].value.Nums? && func(input[i].value.nums).Some?
    ensures var outs := ReducerStream(func, input);
      && |outs| == |input|
      && (forall i :: 0 <= i < |input| ==> outs[i] == Sample(input[i].symbol, Num(func(input[i].value.nums).value)))
  {
    if input != [] { ReducerSees(func, input[..|input| - 1]); }
  }

  // ---------- A throwing reducer ----------

  /**
   * When the reducer throws, the accumulator is left as it was exactly when
   * the symbol was known and below the length cap: at the cap the oldest value
   * is lost, and a new symbol stays behind with an empty list.
   */
  lemma ThrowKeepsAccumulator(fn: Reducer, acc: map<string, seq<Value>>, sv: Sample)
    requires sv.symbol in acc || |acc| < MAX_SYMBOLS
    requires fn(Accumulated(acc, sv)).None?
    ensures WorkerStep(fn, acc, sv).0 == acc <==> sv.symbol in acc && |acc[sv.symbol]| < MAX_ACC
  {
    var r := WorkerStep(fn, acc, sv).0;
    if sv.symbol in acc {
      var vec := acc[sv.symbol] + [sv.value];
      if |acc[sv.symbol]| < MAX_ACC {
        assert vec[..|vec| - 1] == acc[sv.symbol];
        assert r == acc;
      } else {
        assert |r[sv.symbol]| == MAX_ACC - 1;
      }
    } else {
      assert sv.symbol in r;
    }
  }

  /** A full accumulator and a reducer that throws: one stored value is gone. */
  lemma ThrowAtCapExample()
    ensures var acc := map["X" := seq(MAX_ACC, _ => Num(0.0))];
      WorkerStep(xs => None, acc, Sample("X", Num(1.0))).0 != acc
  {
    ThrowKeepsAccumulator(xs => None, map["X" := seq(MAX_ACC, _ => Num(0.0))], Sample("X", Num(1.0)));
  }

  // ---------- GroupSplit ----------

  /** The children built so far, one per symbol; all push into the split's own downstream. */
  type Children = map<string, Node>

  /** One value into a split: what its downstream receives, and whether the child factory threw. */
  function SplitDeliver(reg: Registry, child: Spec, kids: Children, sv: Sample): (Children, seq<Sample>, bool) {
    if sv.symbol in kids then
      var (n, got) := Deliver(kids[sv.symbol], sv);
      (kids[sv.symbol := n], got, false)
    else if |kids| + 1 > MAX_CHILDREN then (kids, [], false)
    else
      var built := Build(reg, child, Terminal);
      if built.None? then (kids, [], true)
      else
        var (n, got) := Deliver(built.value, sv);
        (kids[sv.symbol := n], got, false)
  }

  function SplitAll(reg: Registry, child: Spec, input: seq<Sample>): (Children, seq<Sample>, bool) {
    if input == [] then (map[], [], false) else
    var k := |input| - 1;
    var (kids, got, threw) := SplitAll(reg, child, input[..k]);
    var (kids', more, threw') := SplitDeliver(reg, child, kids, input[k]);
    (kids', got + more, threw || threw')
  }

  function OnlyOf(acc: map<string, seq<Value>>, s: string): map<string, seq<Value>> {
    if s in acc then map[s := acc[s]] else map[]
  }

  lemma WorkerStepAlone(fn: Reducer, acc: map<string, seq<Value>>, sv: Sample)
    requires sv.symbol in acc || |acc| < MAX_SYMBOLS
    ensures var (acc', out) := WorkerStep(fn, acc, sv);
      && WorkerStep(fn, OnlyOf(acc, sv.symbol), sv) == (OnlyOf(acc', sv.symbol), out)
      && acc'.Keys == acc.Keys + {sv.symbol}
      && (out.Some? ==> out.value.symbol == sv.symbol)
  {
    var one, vec := OnlyOf(acc, sv.symbol), Accumulated(acc, sv);
    assert Accumulated(one, sv) == vec;
    assert |one| <= 1;
    assert one[sv.symbol := vec] == map[sv.symbol := vec];
    assert one[sv.symbol := vec[..|vec| - 1]] == map[sv.symbol := vec[..|vec| - 1]];
  }

  /** The node with only one symbol's accumulators kept. */
  function Only(n: Node, s: string): Node {
    match n
    case Terminal => n
    case WorkerNode(fn, acc, down) => WorkerNode(fn, OnlyOf(acc, s), Only(down, s))
    case ReducerNode(func, down) => ReducerNode(func, Only(down, s))
  }

  /** Every Worker has seen only symbols that every Worker before it has seen. */
  ghost predicate Nested(n: Node, seen: set<string>) {
    match n
    case Terminal => true
    case WorkerNode(_, acc, down) => acc.Keys <= seen && Nested(down, acc.Keys)
    case ReducerNode(_, down) => Nested(down, seen)
  }

  lemma {:induction false} NestedGrows(n: Node, a: set<string>, b: set<string>)
    requires Nested(n, a) && a <= b
    ensures Nested(n, b)
  {
    if n.ReducerNode? { NestedGrows(n.down, a, b); }
  }

  lemma SubsetSize(a: set<string>, b: set<string>, x: string)
    requires a <= b && x in b && x !in a
    ensures |a| < |b|
  {
    var c := b - {x};
    assert a <= c;
    var d := c - a;
    assert |c| == |a| + |d| by { assert c == a + d; }
  }

  /**
   * A symbol admitted by the first Worker is never dropped by a later one, and
   * is processed as if the node had never seen any other symbol.
   */
  lemma {:induction false} OneSymbolAlone(n: Node, sv: Sample, seen: set<string>)
    requires Nested(n, seen) && sv.symbol in seen && |seen| <= MAX_SYMBOLS
    ensures var (m, got) := Deliver(n, sv);
      && Deliver(Only(n, sv.symbol), sv) == (Only(m, sv.symbol), got)
      && Nested(m, seen)
  {
    match n
    case Terminal =>
    case ReducerNode(func, down) =>
      var out := ReducerStep(func, sv);
      if out.Some? { OneSymbolAlone(down, out.value, seen); }
    case WorkerNode(fn, acc, down) =>
      if sv.symbol !in acc {
        SubsetSize(acc.Keys, seen, sv.symbol);
        assert |acc| == |acc.Keys|;
      }
      WorkerStepAlone(fn, acc, sv);
      var (acc', out) := WorkerStep(fn, acc, sv);
      NestedGrows(down, acc.Keys, acc'.Keys);
      if out.Some? {
        SubsetKeepsCap(acc'.Keys, seen);
        OneSymbolAlone(down, out.value, acc'.Keys);
      }
  }

  lemma SubsetKeepsCap(a: set<string>, b: set<string>)
    requires a <= b
    ensures |a| <= |b|
  {
    assert b == a + (b - a);
  }

  /** Other symbols' accumulators are not touched. */
  lemma {:induction false} OtherSymbolsUntouched(n: Node, sv: Sample, s: string)
    requires s != sv.symbol
    ensures Only(Deliver(n, sv).0, s) == Only(n, s)
  {
    match n
    case Terminal =>
    case ReducerNode(func, down) =>
      var out := ReducerStep(func, sv);
      if out.Some? { OtherSymbolsUntouched(down, out.value, s); }
    case WorkerNode(fn, acc, down) =>
      var out := WorkerStep(fn, acc, sv).1;
      if out.Some? { OtherSymbolsUntouched(down, out.value, s); }
  }

  /** The split's children are the chain, one symbol at a time. */
  ghost predicate Mirrors(n: Node, blank: Node, kids: Children) {
    && n.WorkerNode? && n.acc.Keys == kids.Keys && |kids| <= MAX_SYMBOLS && Nested(n.down, n.acc.Keys)
    && (forall s :: s in kids ==> kids[s] == Only(n, s))
    && (forall s :: s !in kids ==> Only(n, s) == blank)
  }

  predicate Blank(n: Node) {
    match n
    case Terminal => true
    case WorkerNode(_, acc, down) => acc == map[] && Blank(down)
    case ReducerNode(_, down) => Blank(down)
  }

  lemma {:induction false} BlankFacts(n: Node, s: string)
    requires Blank(n)
    ensures Only(n, s) == n && Nested(n, {})
  {
    if !n.Terminal? {
      BlankFacts(n.down, s);
      if n.WorkerNode? { assert n.acc.Keys == {}; }
    }
  }

  lemma {:induction false} BuildIsBlank(reg: Registry, spec: Spec, down: Node)
    requires Blank(down)
    ensures Build(reg, spec, down).Some? ==> Blank(Build(reg, spec, down).value)
    decreases spec
  {
    if spec.ChainSpec? { BuildAllIsBlank(reg, spec.stages, down); }
  }

  lemma {:induction false} BuildAllIsBlank(reg: Registry, stages: seq<Spec>, down: Node)
    requires Blank(down)
    ensures BuildAll(reg, stages, down).Some? ==> Blank(BuildAll(reg, stages, down).value)
    decreases stages
  {
    if stages != [] {
      BuildAllIsBlank(reg, stages[1..], down);
      var rest := BuildAll(reg, stages[1..], down);
      if rest.Some? { BuildIsBlank(reg, stages[0], rest.value); }
    }
  }

  /** A symbol with room: the chain's head takes it, and every later Worker stays nested. */
  lemma HeadAdmits(n: Node, sv: Sample)
    requires n.WorkerNode? && Nested(n.down, n.acc.Keys)
    requires |n.acc| <= MAX_SYMBOLS && (sv.symbol in n.acc || |n.acc| < MAX_SYMBOLS)
    ensures var (m, got) := Deliver(n, sv);
      && Deliver(Only(n, sv.symbol), sv) == (Only(m, sv.symbol), got)
      && m.WorkerNode? && m.acc.Keys == n.acc.Keys + {sv.symbol} && Nested(m.down, m.acc.Keys)
      && |m.acc.Keys| <= MAX_SYMBOLS
  {
    var seen := n.acc.Keys + {sv.symbol};
    assert |n.acc| == |n.acc.Keys|;
    assert |seen| <= MAX_SYMBOLS;
    OneSymbolAlone(n, sv, seen);
    WorkerStepAlone(n.fn, n.acc, sv);
  }

  lemma SplitAdmits(blank: Node, n: Node, kids: Children, sv: Sample)
    requires Mirrors(n, blank, kids) && (sv.symbol in kids || |kids| < MAX_SYMBOLS)
    ensures var (m, got) := Deliver(n, sv);
      && Deliver(Only(n, sv.symbol), sv) == (Only(m, sv.symbol), got)
      && Mirrors(m, blank, kids[sv.symbol := Only(m, sv.symbol)])
  {
    assert |n.acc| == |n.acc.Keys| && |kids| == |kids.Keys|;
    HeadAdmits(n, sv);
    var m := Deliver(n, sv).0;
    var kids' := kids[sv.symbol := Only(m, sv.symbol)];
    assert kids'.Keys == m.acc.Keys && |kids'| == |kids'.Keys|;
    forall s | s != sv.symbol ensures Only(m, s) == Only(n, s) {
      OtherSymbolsUntouched(n, sv, s);
    }
  }

  lemma SplitStep(reg: Registry, child: Spec, blank: Node, n: Node, kids: Children, sv: Sample)
    requires Build(reg, child, Terminal) == Some(blank) && Mirrors(n, blank, kids)
    ensures var (m, got) := Deliver(n, sv);
      var (kids', got', threw) := SplitDeliver(reg, child, kids, sv);
      Mirrors(m, blank, kids') && got == got' && !threw
  {
    if sv.symbol in kids || |kids| < MAX_SYMBOLS {
      SplitAdmits(blank, n, kids, sv);
    } else {
      assert |n.acc| == |n.acc.Keys| && |kids| == |kids.Keys|;
      assert Deliver(n, sv) == (n, []);
    }
  }

  /**
   * A split over any chain that starts with a Worker emits, on every input
   * stream, exactly what the chain alone emits, symbol cap included.
   */
  lemma {:induction false} SplitIsChain(reg: Registry, child: Spec, blank: Node, input: seq<Sample>)
    requires Build(reg, child, Terminal) == Some(blank) && blank.WorkerNode?
    ensures SplitAll(reg, child, input).1 == DeliverAll(blank, input).1 && !SplitAll(reg, child, input).2
    ensures Mirrors(DeliverAll(blank, input).0, blank, SplitAll(reg, child, input).0)
  {
    if input == [] {
      BuildIsBlank(reg, child, Terminal);
      assert blank.acc.Keys == {};
      BlankFacts(blank.down, "");
      forall s ensures Only(blank, s) == blank && Nested(blank, {}) {
        BlankFacts(blank, s);
      }
    } else {
      var k := |input| - 1;
      SplitIsChain(reg, child, blank, input[..k]);
      SplitStep(reg, child, blank, DeliverAll(blank, input[..k]).0, SplitAll(reg, child, input[..k]).0, input[k]);
    }
  }

  function SymbolsOf(input: seq<Sample>): set<string> {
    set i | 0 <= i < |input| :: input[i].symbol
  }

  /** As `Mirrors`, for a chain that may start with a reducer. */
  ghost predicate Shadows(n: Node, blank: Node, kids: Children) {
    && Nested(n, kids.Keys) && (forall s :: s in kids ==> kids[s] == Only(n, s))
    && (forall s :: s !in kids ==> Only(n, s) == blank)
  }

  lemma ShadowAdmits(blank: Node, n: Node, kids: Children, sv: Sample)
    requires Shadows(n, blank, kids) && |kids.Keys + {sv.symbol}| <= MAX_SYMBOLS
    ensures var (m, got) := Deliver(n, sv);
      && Deliver(Only(n, sv.symbol), sv) == (Only(m, sv.symbol), got)
      && Shadows(m, blank, kids[sv.symbol := Only(m, sv.symbol)])
  {
    var seen := kids.Keys + {sv.symbol};
    NestedGrows(n, kids.Keys, seen);
    OneSymbolAlone(n, sv, seen);
    var m := Deliver(n, sv).0;
    forall s | s != sv.symbol ensures Only(m, s) == Only(n, s) {
      OtherSymbolsUntouched(n, sv, s);
    }
    ShadowExtends(n, m, blank, kids, sv.symbol);
  }

  lemma ShadowExtends(n: Node, m: Node, blank: Node, kids: Children, x: string)
    requires Shadows(n, blank, kids) && Nested(m, kids.Keys + {x})
    requires forall s :: s != x ==> Only(m, s) == Only(n, s)
    ensures Shadows(m, blank, kids[x := Only(m, x)])
  {
    var more := kids[x := Only(m, x)];
    assert more.Keys == kids.Keys + {x};
    forall s | s in more ensures more[s] == Only(m, s) {
      if s != x { assert more[s] == kids[s]; }
    }
    forall s | s !in more ensures Only(m, s) == blank {
      assert s != x;
    }
  }

  lemma ShadowStep(reg: Registry, child: Spec, blank: Node, n: Node, kids: Children, sv: Sample)
    requires Build(reg, child, Terminal) == Some(blank) && Shadows(n, blank, kids)
    requires |kids.Keys + {sv.symbol}| <= MAX_CHILDREN
    ensures var (m, got) := Deliver(n, sv);
      SplitDeliver(reg, child, kids, sv) == (kids[sv.symbol := Only(m, sv.symbol)], got, false)
      && Shadows(m, blank, kids[sv.symbol := Only(m, sv.symbol)])
  {
    ShadowAdmits(blank, n, kids, sv);
    if sv.symbol !in kids {
      assert |kids| == |kids.Keys| && |kids.Keys + {sv.symbol}| == |kids| + 1;
    }
  }

  /** While no more symbols than the cap have been seen, the same holds whatever the chain starts with. */
  lemma {:induction false} SplitIsChainWithinCap(reg: Registry, child: Spec, blank: Node, input: seq<Sample>)
    requires Build(reg, child, Terminal) == Some(blank) && |SymbolsOf(input)| <= MAX_CHILDREN
    ensures SplitAll(reg, child, input).1 == DeliverAll(blank, input).1 && !SplitAll(reg, child, input).2
    ensures SplitAll(reg, child, input).0.Keys == SymbolsOf(input)
    ensures Shadows(DeliverAll(blank, input).0, blank, SplitAll(reg, child, input).0)
  {
    if input == [] {
      BuildIsBlank(reg, child, Terminal);
      BlankShadows(blank);
    } else {
      var k := |input| - 1;
      var kids := SplitAll(reg, child, input[..k]).0;
      assert SymbolsOf(input) == SymbolsOf(input[..k]) + {input[k].symbol};
      SubsetKeepsCap(SymbolsOf(input[..k]), SymbolsOf(input));
      SplitIsChainWithinCap(reg, child, blank, input[..k]);
      ShadowStep(reg, child, blank, DeliverAll(blank, input[..k]).0, kids, input[k]);
    }
  }

  lemma BlankShadows(n: Node)
    requires Blank(n)
    ensures Shadows(n, n, map[])
  {
    var none: Children := map[];
    assert none.Keys == {};
    forall s ensures Only(n, s) == n && Nested(n, {}) {
      BlankFacts(n, s);
    }
  }

  // ---------- Exactly which splits are their chains ----------

  /** The part of a stream that carries one symbol. */
  function Of(input: seq<Sample>, s: string): seq<Sample> {
    if input == [] then [] else
    var k := |input| - 1;
    Of(input[..k], s) + (if input[k].symbol == s then [input[k]] else [])
  }

  /** A child has seen its symbol's whole stream: a symbol is admitted when it first appears or never. */
  ghost predicate Substreams(blank: Node, input: seq<Sample>, kids: Children) {
    && (forall s :: s in kids ==> kids[s] == DeliverAll(blank, Of(input, s)).0)
    && (forall s :: s !in kids ==> |kids| >= MAX_CHILDREN || Of(input, s) == [])
  }

  lemma OfPush(input: seq<Sample>, sv: Sample, s: string)
    ensures Of(input + [sv], s) == Of(input, s) + if s == sv.symbol then [sv] else []
  {
    assert (input + [sv])[..|input|] == input;
  }

  /** What the child of an admitted symbol does with its next value. */
  lemma AdmittedStep(reg: Registry, child: Spec, blank: Node, input: seq<Sample>, kids: Children, sv: Sample)
    requires Build(reg, child, Terminal) == Some(blank) && Substreams(blank, input, kids)
    requires sv.symbol in kids || |kids| < MAX_CHILDREN
    ensures var (n, got) := DeliverAll(blank, Of(input + [sv], sv.symbol));
      var (kids', more, threw) := SplitDeliver(reg, child, kids, sv);
      kids' == kids[sv.symbol := n] && !threw && got == DeliverAll(blank, Of(input, sv.symbol)).1 + more
  {
    var x := sv.symbol;
    OfPush(input, sv, x);
    DeliverAllPush(blank, Of(input, x), sv);
    var at := DeliverAll(blank, Of(input, x)).0;
    if x in kids {
      assert kids[x] == at;
    } else {
      assert Of(input, x) == [] && at == blank;
    }
    assert SplitDeliver(reg, child, kids, sv) == (kids[x := Deliver(at, sv).0], Deliver(at, sv).1, false);
  }

  lemma SubstreamStep(reg: Registry, child: Spec, blank: Node, input: seq<Sample>, kids: Children, sv: Sample)
    requires Build(reg, child, Terminal) == Some(blank) && Substreams(blank, input, kids)
    requires forall xs :: DeliverAll(blank, xs).1 == []
    ensures var (kids', got, threw) := SplitDeliver(reg, child, kids, sv);
      Substreams(blank, input + [sv], kids') && !threw && got == []
  {
    var x := sv.symbol;
    if x in kids || |kids| < MAX_CHILDREN {
      AdmittedStep(reg, child, blank, input, kids, sv);
      SubstreamsGrow(blank, input, kids, sv);
    } else {
      SubstreamsStay(blank, input, kids, sv);
    }
  }

  lemma SubstreamsGrow(blank: Node, input: seq<Sample>, kids: Children, sv: Sample)
    requires Substreams(blank, input, kids)
    ensures Substreams(blank, input + [sv], kids[sv.symbol := DeliverAll(blank, Of(input + [sv], sv.symbol)).0])
  {
    var n := DeliverAll(blank, Of(input + [sv], sv.symbol)).0;
    GrowsWithKey(kids, sv.symbol, n);
    forall s | s != sv.symbol ensures Of(input + [sv], s) == Of(input, s) {
      OfPush(input, sv, s);
      assert Of(input, s) + [] == Of(input, s);
    }
  }

  lemma SubstreamsStay(blank: Node, input: seq<Sample>, kids: Children, sv: Sample)
    requires Substreams(blank, input, kids) && sv.symbol !in kids && |kids| >= MAX_CHILDREN
    ensures Substreams(blank, input + [sv], kids)
  {
    forall s | s in kids ensures Of(input + [sv], s) == Of(input, s) {
      OfPush(input, sv, s);
      assert Of(input, s) + [] == Of(input, s);
    }
  }

  lemma GrowsWithKey(kids: Children, x: string, n: Node)
    ensures |kids[x := n]| >= |kids|
  {
    assert kids[x := n].Keys == kids.Keys + {x};
    SubsetKeepsCap(kids.Keys, kids[x := n].Keys);
    assert |kids| == |kids.Keys| && |kids[x := n]| == |kids[x := n].Keys|;
  }

  /** A chain that never emits has a split that never emits. */
  lemma {:induction false} SilentSplit(reg: Registry, child: Spec, blank: Node, input: seq<Sample>)
    requires Build(reg, child, Terminal) == Some(blank)
    requires forall xs :: DeliverAll(blank, xs).1 == []
    ensures SplitAll(reg, child, input).1 == []
    ensures Substreams(blank, input, SplitAll(reg, child, input).0)
  {
    if input != [] {
      var k := |input| - 1;
      SilentSplit(reg, child, blank, input[..k]);
      assert input[..k] + [input[k]] == input;
      SubstreamStep(reg, child, blank, input[..k], SplitAll(reg, child, input[..k]).0, input[k]);
    }
  }

  /** A full split passes unknown symbols by. */
  lemma {:induction false} FullSplitDrops(reg: Registry, child: Spec, pre: seq<Sample>, more: seq<Sample>)
    requires |SplitAll(reg, child, pre).0| >= MAX_CHILDREN
    requires forall i :: 0 <= i < |more| ==> more[i].symbol !in SplitAll(reg, child, pre).0
    ensures SplitAll(reg, child, pre + more) == SplitAll(reg, child, pre)
  {
    if more == [] {
      assert pre + more == pre;
    } else {
      var k := |more| - 1;
      assert (pre + more)[..|pre + more| - 1] == pre + more[..k];
      FullSplitDrops(reg, child, pre, more[..k]);
      assert SplitAll(reg, child, pre).1 + [] == SplitAll(reg, child, pre).1;
    }
  }

  /** Feed one stream, then another. */
  function InTurn(n: Node, a: seq<Sample>, b: seq<Sample>): (Node, seq<Sample>) {
    var (m, got) := DeliverAll(n, a);
    var (m', more) := DeliverAll(m, b);
    (m', got + more)
  }

  lemma InTurnPush(n: Node, a: seq<Sample>, b: seq<Sample>, sv: Sample)
    ensures InTurn(n, a, b + [sv])
         == var (m, got) := InTurn(n, a, b); var (m', more) := Deliver(m, sv); (m', got + more)
  {
    var (m, got) := DeliverAll(n, a);
    var (m', more) := DeliverAll(m, b);
    DeliverAllPush(m, b, sv);
    assert got + more + Deliver(m', sv).1 == got + (more + Deliver(m', sv).1);
  }

  lemma {:induction false} DeliverAllAppend(n: Node, a: seq<Sample>, b: seq<Sample>)
    ensures DeliverAll(n, a + b) == InTurn(n, a, b)
  {
    if b == [] {
      assert a + b == a && DeliverAll(n, a).1 + [] == DeliverAll(n, a).1;
    } else {
      var c, sv := b[..|b| - 1], b[|b| - 1];
      assert a + b == (a + c) + [sv] && b == c + [sv];
      DeliverAllAppend(n, a, c);
      DeliverAllPush(n, a + c, sv);
      InTurnPush(n, a, c, sv);
    }
  }

  lemma SplitAllPush(reg: Registry, child: Spec, input: seq<Sample>, sv: Sample)
    ensures SplitAll(reg, child, input + [sv])
         == var (kids, got, threw) := SplitAll(reg, child, input);
            var (kids', more, threw') := SplitDeliver(reg, child, kids, sv);
            (kids', got + more, threw || threw')
  {
    assert (input + [sv])[..|input|] == input;
  }

  function Name(n: nat): string {
    seq(n, _ => 'x')
  }

  /** `n` symbols longer than `base`, each with a value every VectorReducer drops. */
  function Fillers(base: nat, n: nat): seq<Sample> {
    if n == 0 then [] else Fillers(base, n - 1) + [Sample(Name(base + n), Flag(false))]
  }

  /** They leave a chain that starts with a reducer untouched. */
  lemma {:induction false} FillersPass(blank: Node, base: nat, n: nat)
    requires blank.ReducerNode?
    ensures DeliverAll(blank, Fillers(base, n)) == (blank, [])
  {
    if n > 0 {
      var sv := Sample(Name(base + n), Flag(false));
      FillersPass(blank, base, n - 1);
      DeliverAllPush(blank, Fillers(base, n - 1), sv);
      assert Deliver(blank, sv) == (blank, []);
      var none: seq<Sample> := [];
      assert none + none == none;
      assert Fillers(base, n) == Fillers(base, n - 1) + [sv];
    }
  }

  ghost predicate FilledTo(kids: Children, base: nat, n: nat) {
    |kids| == n && forall s :: s in kids ==> base < |s| <= base + n
  }

  /** And they fill the split's children. */
  lemma {:induction false} FillersFill(reg: Registry, child: Spec, blank: Node, base: nat, n: nat)
    requires Build(reg, child, Terminal) == Some(blank) && blank.ReducerNode? && n <= MAX_CHILDREN
    ensures SplitAll(reg, child, Fillers(base, n)).1 == []
    ensures FilledTo(SplitAll(reg, child, Fillers(base, n)).0, base, n)
  {
    if n > 0 {
      FillersFill(reg, child, blank, base, n - 1);
      var pre, sv := Fillers(base, n - 1), Sample(Name(base + n), Flag(false));
      SplitAllPush(reg, child, pre, sv);
      FillerFills(reg, child, blank, SplitAll(reg, child, pre).0, sv);
    }
  }

  lemma FillerFills(reg: Registry, child: Spec, blank: Node, kids: Children, sv: Sample)
    requires Build(reg, child, Terminal) == Some(blank) && blank.ReducerNode? && !sv.value.Nums?
    requires sv.symbol !in kids && |kids| < MAX_CHILDREN
    ensures Deliver(blank, sv) == (blank, [])
    ensures SplitDeliver(reg, child, kids, sv) == (kids[sv.symbol := blank], [], false)
    ensures |kids[sv.symbol := blank]| == |kids| + 1
  {
    var more := kids[sv.symbol := blank];
    assert more.Keys == kids.Keys + {sv.symbol};
    assert |kids| == |kids.Keys| && |more| == |more.Keys|;
  }

  function Longest(input: seq<Sample>): (n: nat)
    ensures forall i :: 0 <= i < |input| ==> |input[i].symbol| <= n
  {
    if input == [] then 0 else
    var k := |input| - 1;
    var n := Longest(input[..k]);
    if n >= |input[k].symbol| then n else |input[k].symbol|
  }

  /** Any stream on which a reducer-first chain emits, sent after the split is full, is emitted by the chain alone. */
  lemma ReducerFirstDiffers(reg: Registry, child: Spec, blank: Node, input: seq<Sample>) returns (bad: seq<Sample>)
    requires Build(reg, child, Terminal) == Some(blank) && blank.ReducerNode? && DeliverAll(blank, input).1 != []
    ensures bad == Fillers(Longest(input), MAX_CHILDREN) + input
    ensures SplitAll(reg, child, bad).1 == [] && DeliverAll(blank, bad).1 == DeliverAll(blank, input).1
  {
    var pre := Fillers(Longest(input), MAX_CHILDREN);
    bad := pre + input;
    FillersFill(reg, child, blank, Longest(input), MAX_CHILDREN);
    FillersPass(blank, Longest(input), MAX_CHILDREN);
    FullSplitDrops(reg, child, pre, input);
    DeliverAllAppend(blank, pre, input);
    assert [] + DeliverAll(blank, input).1 == DeliverAll(blank, input).1;
  }

  lemma {:induction false} LeavesNotEmpty(spec: Spec)
    requires !HasEmptyChain(spec)
    ensures Leaves(spec) != [] && !Leaves(spec)[0].ChainSpec?
    decreases spec
  {
    if spec.ChainSpec? { LeavesNotEmpty(spec.stages[0]); }
  }

  /** The head of a built chain is its first leaf. */
  lemma HeadIsFirstLeaf(reg: Registry, child: Spec)
    requires Build(reg, child, Terminal).Some?
    ensures var blank := Build(reg, child, Terminal).value;
      && Leaves(child) != [] && !blank.Terminal? && (blank.WorkerNode? <==> Leaves(child)[0].WorkerSpec?)
  {
    FlatteningKeepsBuild(reg, child, Terminal);
    LeavesNotEmpty(child);
  }

  /**
   * A split emits what its chain emits on every input stream exactly when the
   * chain's first leaf is a Worker, or the chain never emits anything at all.
   */
  lemma SplitIsChainIff(reg: Registry, child: Spec, blank: Node)
    requires Build(reg, child, Terminal) == Some(blank)
    ensures Leaves(child) != []
    ensures (forall input :: SplitAll(reg, child, input).1 == DeliverAll(blank, input).1)
       <==> Leaves(child)[0].WorkerSpec? || (forall input :: DeliverAll(blank, input).1 == [])
  {
    HeadIsFirstLeaf(reg, child);
    if blank.WorkerNode? {
      forall input ensures SplitAll(reg, child, input).1 == DeliverAll(blank, input).1 {
        SplitIsChain(reg, child, blank, input);
      }
    } else if forall input :: DeliverAll(blank, input).1 == [] {
      forall input ensures SplitAll(reg, child, input).1 == DeliverAll(blank, input).1 {
        SilentSplit(reg, child, blank, input);
      }
    } else {
      var input :| DeliverAll(blank, input).1 != [];
      var bad := ReducerFirstDiffers(reg, child, blank, input);
      assert SplitAll(reg, child, bad).1 != DeliverAll(blank, bad).1;
    }
  }

  /** At the cap: the next new symbol tells them apart exactly when the chain emits for it. */
  lemma SplitAtCapIff(reg: Registry, child: Spec, blank: Node, pre: seq<Sample>, sv: Sample)
    requires Build(reg, child, Terminal) == Some(blank)
    requires |SymbolsOf(pre)| == MAX_CHILDREN && sv.symbol !in SymbolsOf(pre)
    ensures SplitAll(reg, child, pre + [sv]).1 == DeliverAll(blank, pre + [sv]).1
       <==> Deliver(DeliverAll(blank, pre).0, sv).1 == []
  {
    SplitIsChainWithinCap(reg, child, blank, pre);
    var kids := SplitAll(reg, child, pre).0;
    assert |kids| == |kids.Keys|;
    FullSplitDrops(reg, child, pre, [sv]);
    DeliverAllPush(blank, pre, sv);
    var got := DeliverAll(blank, pre).1;
    assert |got + Deliver(DeliverAll(blank, pre).0, sv).1| == |got| + |Deliver(DeliverAll(blank, pre).0, sv).1|;
  }

  /** A single VectorReducer that drops no vector: the chain emits for the symbol past the cap, the split does not. */
  lemma ReducerOnlyExample() returns (bad: seq<Sample>)
    ensures var reg := Registry(map["zero" := (xs: seq<real>) => Some(0.0)], map[]);
      && SplitAll(reg, ReducerSpec("zero"), bad).1 == []
      && Build(reg, ReducerSpec("zero"), Terminal).Some?
      && DeliverAll(Build(reg, ReducerSpec("zero"), Terminal).value, bad).1 == [Sample("A", Num(0.0))]
  {
    var f: Func := xs => Some(0.0);
    var reg := Registry(map["zero" := f], map[]);
    var blank, input := ReducerNode(f, Terminal), [Sample("A", Nums([]))];
    assert input[..0] == [];
    bad := ReducerFirstDiffers(reg, ReducerSpec("zero"), blank, input);
  }

  // ---------- The nodes as objects ----------

  class Worker {
    const fn: Reducer
    var stopping: bool
    /** Is the downstream node still held? */
    var linked: bool
    var acc: map<string, seq<Value>>

    constructor (fn: Reducer, linked: bool)
      ensures this.fn == fn && acc == map[] && !stopping && this.linked == linked
    {
      this.fn, stopping, this.linked, acc := fn, false, linked, map[];
    }

    /** The sample passed downstream, if any. */
    method OnValue(sv: Sample) returns (out: Option<Sample>)
      modifies `acc
      ensures acc == if stopping then old(acc) else WorkerStep(fn, old(acc), sv).0
      ensures out == if stopping || !linked then None else WorkerStep(fn, old(acc), sv).1
    {
      if stopping { return None; }
      if sv.symbol !in acc && |acc| >= MAX_SYMBOLS { return None; }
      var vec := if sv.symbol in acc then acc[sv.symbol] else [];
      vec := vec + [sv.value];
      if |vec| > MAX_ACC {
        vec := vec[|vec| - MAX_ACC..];
      }
      var r := fn(vec);
      if r.None? {
        acc := acc[sv.symbol := vec[..|vec| - 1]];
        return None;
      }
      acc := acc[sv.symbol := vec];
      return if linked then Some(Sample(sv.symbol, r.value)) else None;
    }

    /** Nothing is passed on, accumulated or held after it. */
    method Shutdown()
      modifies this
      ensures stopping && !linked && acc == map[]
    {
      stopping, linked, acc := true, false, map[];
    }
  }

  class GroupSplit {
    const reg: Registry
    const child: Spec
    var children: Children

    constructor (reg: Registry, child: Spec)
      ensures this.reg == reg && this.child == child && children == map[]
    {
      this.reg, this.child, children := reg, child, map[];
    }

    /** What the shared downstream receives, and whether the factory threw. */
    method OnValue(sv: Sample) returns (got: seq<Sample>, threw: bool)
      modifies this
      ensures (children, got, threw) == SplitDeliver(reg, child, old(children), sv)
    {
      got, threw := [], false;
      if sv.symbol !in children {
        if |children| + 1 > MAX_CHILDREN { return; }
        var built := Build(reg, child, Terminal);
        if built.None? {
          threw := true;
          return;
        }
        children := children[sv.symbol := built.value];
      }
      var r := Deliver(children[sv.symbol], sv);
      assert children[sv.symbol := r.0] == old(children)[sv.symbol := r.0];
      children, got := children[sv.symbol := r.0], r.1;
    }
  }
}
