/**
 * The venue-key resolver: a recency list with an index into it. `idx` maps a
 * key to its list node, `nodes` is the list's storage, `dq` the list order,
 * most recent first.
 */
module Lrus {
  import opened Seqs
  import opened BookTypes

  datatype Entry = Entry(key: string, value: OrderKey)

  // ---------- What a resolver remembers, from its history of puts ----------

  /** Every key ever put, most recent first, each with its latest value. */
  function Recency(history: seq<Entry>): seq<Entry> {
    if history == [] then [] else
    var n := |history| - 1;
    [history[n]] + Forget(Recency(history[..n]), history[n].key)
  }

  /** The list without its entry for `k`. */
  function Forget(l: seq<Entry>, k: string): seq<Entry> {
    if l == [] then [] else if l[0].key == k then l[1..] else [l[0]] + Forget(l[1..], k)
  }

  function Take(l: seq<Entry>, n: nat): seq<Entry> {
    if n <= |l| then l[..n] else l
  }

  predicate DistinctKeys(l: seq<Entry>) {
    forall i, j :: 0 <= i < j < |l| ==> l[i].key != l[j].key
  }

  function Lookup(l: seq<Entry>, k: string): Option<OrderKey> {
    if l == [] then None else if l[0].key == k then Some(l[0].value) else Lookup(l[1..], k)
  }

  // ---------- One put on the truncated list is one put on the history ----------

  function PutOn(l: seq<Entry>, cap: nat, e: Entry): seq<Entry> {
    Take([e] + Forget(l, e.key), cap)
  }

  lemma {:induction false} ForgetFacts(l: seq<Entry>, k: string)
    requires DistinctKeys(l)
    ensures DistinctKeys(Forget(l, k)) && |Forget(l, k)| <= |l|
    ensures forall e :: e in Forget(l, k) <==> e in l && e.key != k
  {
    if l != [] {
      ForgetFacts(l[1..], k);
      if l[0].key != k {
        var r := Forget(l[1..], k);
        assert forall i :: 0 <= i < |r| ==> r[i] in r;
      }
    }
  }

  lemma {:induction false} RecencyDistinct(history: seq<Entry>)
    ensures DistinctKeys(Recency(history))
  {
    if history != [] {
      var n := |history| - 1;
      RecencyDistinct(history[..n]);
      ForgetFacts(Recency(history[..n]), history[n].key);
      FrontDistinct(history[n], Forget(Recency(history[..n]), history[n].key));
    }
  }

  lemma FrontDistinct(e: Entry, l: seq<Entry>)
    requires DistinctKeys(l) && forall x :: x in l ==> x.key != e.key
    ensures DistinctKeys([e] + l)
  {
    assert forall i :: 0 <= i < |l| ==> l[i] in l;
  }

  lemma {:induction false} TakeForget(l: seq<Entry>, k: string, n: nat, m: nat)
    requires m == n + 1
    ensures Take(Forget(Take(l, m), k), n) == Take(Forget(l, k), n)
  {
    if l != [] {
      var t := Take(l, m);
      assert t[0] == l[0] && t[1..] == Take(l[1..], n);
      if l[0].key == k {
        assert Take(l[1..], n) == Take(t[1..], n);
      } else if n > 0 {
        TakeForget(l[1..], k, n - 1, n);
        TakeCons(l[0], Forget(t[1..], k), n - 1, n);
        TakeCons(l[0], Forget(l[1..], k), n - 1, n);
      }
    }
  }

  lemma TakeCons(e: Entry, l: seq<Entry>, n: nat, m: nat)
    requires m == n + 1
    ensures Take([e] + l, m) == [e] + Take(l, n)
  {
  }

  /** A capped list fed puts holds the most recent `cap` keys of the whole history. */
  lemma PutIsRecency(history: seq<Entry>, cap: nat, e: Entry)
    requires cap > 0
    ensures PutOn(Take(Recency(history), cap), cap, e) == Take(Recency(history + [e]), cap)
  {
    var l := Recency(history);
    var n: nat := cap - 1;
    assert (history + [e])[..|history|] == history;
    TakeForget(l, e.key, n, cap);
    TakeCons(e, Forget(Take(l, cap), e.key), n, cap);
    TakeCons(e, Forget(l, e.key), n, cap);
  }

  // ---------- When the resolver answers ----------

  /** The value of the latest put of `k`. */
  function LastPut(history: seq<Entry>, k: string): Option<OrderKey> {
    if history == [] then None else
    var n := |history| - 1;
    if history[n].key == k then Some(history[n].value) else LastPut(history[..n], k)
  }

  /** The distinct other keys put since the latest put of `k`. */
  function KeysSince(history: seq<Entry>, k: string): set<string> {
    if history == [] then {} else
    var n := |history| - 1;
    if history[n].key == k then {} else KeysSince(history[..n], k) + {history[n].key}
  }

  /** The keys standing before `k` in a list. */
  function KeysBefore(l: seq<Entry>, k: string): set<string> {
    if l == [] || l[0].key == k then {} else {l[0].key} + KeysBefore(l[1..], k)
  }

  lemma {:induction false} ForgetOther(l: seq<Entry>, x: string, k: string)
    requires DistinctKeys(l) && x != k
    ensures Lookup(Forget(l, x), k) == Lookup(l, k)
    ensures KeysBefore(Forget(l, x), k) == KeysBefore(l, k) - {x}
  {
    if l != [] {
      ForgetOther(l[1..], x, k);
      if l[0].key == x {
        NotBefore(l[1..], x, k);
      }
    }
  }

  lemma {:induction false} NotBefore(l: seq<Entry>, x: string, k: string)
    requires forall i :: 0 <= i < |l| ==> l[i].key != x
    ensures x !in KeysBefore(l, k)
  {
    if l != [] {
      NotBefore(l[1..], x, k);
    }
  }

  /** The recency list answers with the latest put, and stands `k` behind exactly the keys put since. */
  lemma {:induction false} RecencyAnswers(history: seq<Entry>, k: string)
    ensures Lookup(Recency(history), k) == LastPut(history, k)
    ensures KeysBefore(Recency(history), k) == KeysSince(history, k)
  {
    if history != [] {
      var n := |history| - 1;
      RecencyAnswers(history[..n], k);
      if history[n].key != k {
        RecencyDistinct(history[..n]);
        ForgetOther(Recency(history[..n]), history[n].key, k);
      }
    }
  }

  lemma {:induction false} TakeAnswers(l: seq<Entry>, k: string, n: nat)
    requires DistinctKeys(l)
    ensures Lookup(Take(l, n), k) == if |KeysBefore(l, k)| < n then Lookup(l, k) else None
  {
    if l != [] && n > 0 {
      var m: nat := n - 1;
      TakeAnswers(l[1..], k, m);
      assert Take(l, n) == [l[0]] + Take(l[1..], m);
      if l[0].key != k {
        NotBefore(l[1..], l[0].key, k);
        assert |KeysBefore(l, k)| == 1 + |KeysBefore(l[1..], k)|;
      }
    }
  }

  /**
   * For a fixed capacity the resolver answers `v` exactly when the latest put
   * of `k` stored `v` and fewer than `cap` distinct other keys were put since.
   */
  lemma ResolverAnswers(history: seq<Entry>, cap: nat, k: string)
    ensures Lookup(Take(Recency(history), cap), k)
         == if |KeysSince(history, k)| < cap then LastPut(history, k) else None
  {
    RecencyDistinct(history);
    RecencyAnswers(history, k);
    TakeAnswers(Recency(history), k, cap);
  }

  /** Puts, oldest first, that leave exactly this list. */
  function Replay(l: seq<Entry>): seq<Entry> {
    if l == [] then [] else Replay(l[1..]) + [l[0]]
  }

  lemma {:induction false} ReplayRecency(l: seq<Entry>)
    requires DistinctKeys(l)
    ensures Recency(Replay(l)) == l
  {
    if l != [] {
      ReplayRecency(l[1..]);
      assert Replay(l)[..|Replay(l)| - 1] == Replay(l[1..]);
      ForgetAbsent(l[1..], l[0].key);
    }
  }

  /** A list cut for one capacity and then for another. */
  lemma Recapped(history: seq<Entry>, was: nat, cap: nat, l: seq<Entry>)
    requires l == Take(Recency(history), was)
    ensures cap <= was ==> Take(l, cap) == Take(Recency(history), cap)
    ensures Take(l, cap) == Take(Recency(Replay(l)), cap)
  {
    RecencyDistinct(history);
    ReplayRecency(l);
  }

  // ---------- The linked list and its index ----------

  lemma {:induction false} ForgetAt(l: seq<Entry>, i: nat)
    requires DistinctKeys(l) && i < |l|
    ensures Forget(l, l[i].key) == l[..i] + l[i + 1..] && Lookup(l, l[i].key) == Some(l[i].value)
  {
    if i > 0 {
      var t := l[1..];
      ForgetAt(t, i - 1);
      assert l[0].key != l[i].key && t[i - 1] == l[i];
      assert [l[0]] + (t[..i - 1] + t[i..]) == l[..i] + l[i + 1..];
    }
  }

  lemma {:induction false} ForgetAbsent(l: seq<Entry>, k: string)
    requires forall i :: 0 <= i < |l| ==> l[i].key != k
    ensures Forget(l, k) == l && Lookup(l, k) == None
  {
    if l != [] {
      ForgetAbsent(l[1..], k);
    }
  }

  type Node = nat

  datatype Links = Links(dq: seq<Node>, nodes: map<Node, Entry>, next: Node, idx: map<string, Node>)

  ghost predicate NodeOk(ls: Links, h: Node)
    requires h in ls.nodes
  {
    h in ls.dq && h < ls.next && ls.nodes[h].key in ls.idx && ls.idx[ls.nodes[h].key] == h
  }

  ghost predicate KeyOk(ls: Links, k: string)
    requires k in ls.idx
  {
    ls.idx[k] in ls.nodes && ls.nodes[ls.idx[k]].key == k
  }

  /** List and index are in bijection. */
  ghost predicate Linked(ls: Links) {
    && Distinct(ls.dq) && (forall h :: h in ls.dq ==> h in ls.nodes)
    && (forall h {:trigger NodeOk(ls, h)} :: h in ls.nodes ==> NodeOk(ls, h))
    && (forall k {:trigger KeyOk(ls, k)} :: k in ls.idx ==> KeyOk(ls, k))
  }

  function Listed(dq: seq<Node>, nodes: map<Node, Entry>): seq<Entry>
    requires forall h :: h in dq ==> h in nodes
  {
    seq(|dq|, i requires 0 <= i < |dq| => nodes[dq[i]])
  }

  lemma ListedDistinct(ls: Links)
    requires Linked(ls)
    ensures DistinctKeys(Listed(ls.dq, ls.nodes))
  {
    forall i, j | 0 <= i < j < |ls.dq| ensures ls.nodes[ls.dq[i]].key != ls.nodes[ls.dq[j]].key {
      assert ls.dq[i] in ls.dq && ls.dq[j] in ls.dq;
      assert NodeOk(ls, ls.dq[i]) && NodeOk(ls, ls.dq[j]);
    }
  }

  lemma ListedFront(h: Node, e: Entry, dq: seq<Node>, nodes: map<Node, Entry>)
    requires h !in dq && forall x :: x in dq ==> x in nodes
    ensures Listed([h] + dq, nodes[h := e]) == [e] + Listed(dq, nodes)
  {
    var all := [h] + dq;
    forall i | 0 < i < |all| ensures all[i] == dq[i - 1] && all[i] != h {
      assert dq[i - 1] in dq;
    }
  }

  lemma ListedWithout(ls: Links, h: Node)
    requires Linked(ls) && h in ls.nodes
    ensures Listed(Without(ls.dq, h), ls.nodes) == Forget(Listed(ls.dq, ls.nodes), ls.nodes[h].key)
  {
    assert NodeOk(ls, h);
    ListedDistinct(ls);
    var l, i := Listed(ls.dq, ls.nodes), IndexOf(ls.dq, h);
    ForgetAt(l, i);
    assert Listed(Without(ls.dq, h), ls.nodes) == l[..i] + l[i + 1..];
  }

  /** Splice a node to the front with a new value. */
  lemma Spliced(ls: Links, k: string, v: OrderKey, h: Node, t: Links)
    requires Linked(ls) && k in ls.idx && h == ls.idx[k]
    requires t == ls.(nodes := ls.nodes[h := Entry(k, v)], dq := [h] + Without(ls.dq, h))
    ensures Linked(t) && Listed(t.dq, t.nodes) == [Entry(k, v)] + Forget(Listed(ls.dq, ls.nodes), k)
  {
    assert KeyOk(ls, k) && NodeOk(ls, h);
    ListedWithout(ls, h);
    ListedFront(h, Entry(k, v), Without(ls.dq, h), ls.nodes);
    SplicedLinked(ls, k, v, h, t);
  }

  lemma SplicedLinked(ls: Links, k: string, v: OrderKey, h: Node, t: Links)
    requires Linked(ls) && k in ls.idx && h == ls.idx[k]
    requires t == ls.(nodes := ls.nodes[h := Entry(k, v)], dq := [h] + Without(ls.dq, h))
    ensures Linked(t)
  {
    assert KeyOk(ls, k) && NodeOk(ls, h);
    forall x | x in t.nodes ensures NodeOk(t, x) { assert NodeOk(ls, x); }
    forall x | x in t.idx ensures KeyOk(t, x) { assert KeyOk(ls, x); }
  }

  lemma Pushed(ls: Links, k: string, v: OrderKey, t: Links)
    requires Linked(ls) && k !in ls.idx
    requires t == Links([ls.next] + ls.dq, ls.nodes[ls.next := Entry(k, v)], ls.next + 1, ls.idx[k := ls.next])
    ensures Linked(t) && Listed(t.dq, t.nodes) == [Entry(k, v)] + Forget(Listed(ls.dq, ls.nodes), k)
  {
    var l := Listed(ls.dq, ls.nodes);
    forall i | 0 <= i < |l| ensures l[i].key != k {
      assert ls.dq[i] in ls.dq && NodeOk(ls, ls.dq[i]);
    }
    ForgetAbsent(l, k);
    NextIsUnused(ls);
    ListedFront(ls.next, Entry(k, v), ls.dq, ls.nodes);
    PushedLinked(ls, k, v, t);
  }

  lemma NextIsUnused(ls: Links)
    requires Linked(ls)
    ensures ls.next !in ls.nodes && ls.next !in ls.dq
  {
    forall h | h in ls.nodes ensures h < ls.next { assert NodeOk(ls, h); }
  }

  lemma PushedLinked(ls: Links, k: string, v: OrderKey, t: Links)
    requires Linked(ls) && k !in ls.idx
    requires t == Links([ls.next] + ls.dq, ls.nodes[ls.next := Entry(k, v)], ls.next + 1, ls.idx[k := ls.next])
    ensures Linked(t)
  {
    NextIsUnused(ls);
    forall x | x in t.nodes ensures NodeOk(t, x) {
      if x != ls.next { assert NodeOk(ls, x); }
    }
    forall x | x in t.idx ensures KeyOk(t, x) {
      if x != k { assert KeyOk(ls, x) && NodeOk(ls, ls.idx[x]); }
    }
  }

  lemma Popped(ls: Links, h: Node, t: Links)
    requires Linked(ls) && ls.dq != [] && h == ls.dq[|ls.dq| - 1] && h in ls.nodes
    requires t == Links(ls.dq[..|ls.dq| - 1], ls.nodes - {h}, ls.next, ls.idx - {ls.nodes[h].key})
    ensures Linked(t) && Listed(t.dq, t.nodes) == Listed(ls.dq, ls.nodes)[..|ls.dq| - 1]
  {
    assert NodeOk(ls, h);
    forall x | x in t.nodes ensures NodeOk(t, x) { assert NodeOk(ls, x); InLast(ls.dq, x); }
    forall x | x in t.idx ensures KeyOk(t, x) { assert KeyOk(ls, x); }
  }

  class Lru {
    var cap: nat
    var dq: seq<Node>
    var nodes: map<Node, Entry>
    var next: Node
    var idx: map<string, Node>
    /** The puts this resolver has seen, or a history that would have left what it holds. */
    ghost var history: seq<Entry>

    ghost function Ls(): Links
      reads this
    {
      Links(dq, nodes, next, idx)
    }

    /** List and index agree, and the list is the most recent keys of the history, up to the capacity. */
    ghost predicate Valid()
      reads this
    {
      Linked(Ls()) && 0 < cap && Contents() == Take(Recency(history), cap)
    }

    /** The entries, most recent first. */
    ghost function Contents(): seq<Entry>
      requires Linked(Ls())
      reads this
    {
      Listed(dq, nodes)
    }

    constructor ()
      ensures Valid() && cap == 4096 && history == []
    {
      cap, dq, nodes, next, idx, history := 4096, [], map[], 0, map[], [];
    }

    method Put(k: string, v: OrderKey)
      requires Valid()
      modifies `dq, `nodes, `next, `idx, `history
      ensures Valid() && history == old(history) + [Entry(k, v)]
    {
      PutIsRecency(history, cap, Entry(k, v));
      Enter(k, v);
      history := history + [Entry(k, v)];
    }

    /** Splice a known key to the front with its new value; else push it there and trim. */
    method Enter(k: string, v: OrderKey)
      requires Linked(Ls()) && 0 < cap && |dq| <= cap
      modifies `dq, `nodes, `next, `idx
      ensures Linked(Ls()) && Contents() == PutOn(old(Contents()), cap, Entry(k, v))
    {
      ghost var was := Ls();
      if k in idx {
        assert KeyOk(was, k) && NodeOk(was, was.idx[k]);
        var h := idx[k];
        nodes := nodes[h := Entry(k, v)];
        dq := [h] + Without(dq, h);
        Spliced(was, k, v, h, Ls());
        return;
      }
      nodes := nodes[next := Entry(k, v)];
      dq := [next] + dq;
      idx := idx[k := next];
      next := next + 1;
      Pushed(was, k, v, Ls());
      Trim();
    }

    /** Drop from the back until the capacity holds. */
    method Trim()
      requires Linked(Ls()) && 0 < cap
      modifies `dq, `nodes, `idx
      ensures Linked(Ls()) && Contents() == Take(old(Contents()), cap)
    {
      ghost var all := Contents();
      while |dq| > cap
        invariant Linked(Ls()) && |dq| <= |all| && (|dq| < |all| ==> cap <= |dq|)
        invariant Contents() == all[..|dq|]
      {
        ghost var was := Ls();
        var h := dq[|dq| - 1];
        assert h in dq;
        idx := idx - {nodes[h].key};
        nodes := nodes - {h};
        dq := dq[..|dq| - 1];
        Popped(was, h, Ls());
      }
    }

    /** The latest put of the key, if fewer than the capacity of other keys were put since; else nothing. */
    method Get(k: string) returns (r: Option<OrderKey>)
      requires Valid()
      ensures r == if |KeysSince(history, k)| < cap then LastPut(history, k) else None
    {
      ResolverAnswers(history, cap, k);
      r := Find(k);
    }

    method Find(k: string) returns (r: Option<OrderKey>)
      requires Linked(Ls())
      ensures r == Lookup(Contents(), k)
    {
      ghost var l := Contents();
      ListedDistinct(Ls());
      if k !in idx {
        forall i | 0 <= i < |l| ensures l[i].key != k {
          assert dq[i] in dq && NodeOk(Ls(), dq[i]);
        }
        ForgetAbsent(l, k);
        return None;
      }
      assert KeyOk(Ls(), k) && NodeOk(Ls(), idx[k]);
      ForgetAt(l, IndexOf(dq, idx[k]));
      return Some(nodes[idx[k]].value);
    }

    /** A capacity of 0 becomes 1; the most recent entries stay, and what a smaller capacity dropped stays dropped. */
    method SetCap(c: nat)
      requires Valid()
      modifies `cap, `dq, `nodes, `idx, `history
      ensures Valid() && cap == (if c == 0 then 1 else c) && Contents() == Take(old(Contents()), cap)
      ensures history == if cap <= old(cap) then old(history) else Replay(old(Contents()))
    {
      ghost var l := Contents();
      var was := cap;
      cap := if c == 0 then 1 else c;
      Trim();
      Recapped(history, was, cap, l);
      if cap > was {
        history := Replay(l);
      }
    }
  }
}
