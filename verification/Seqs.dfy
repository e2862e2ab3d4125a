/** Facts about sequences that several components share. */
module Seqs {

  datatype Option<+T> = None | Some(value: T)

  /** A trigger with no content: a quantifier over it keeps an equation out of proofs that do not mention it. */
  ghost predicate Unfold(n: int) {
    true
  }

  predicate Distinct<T(==)>(q: seq<T>) {
    forall i, j :: 0 <= i < j < |q| ==> q[i] != q[j]
  }

  function IndexOf<T(==)>(q: seq<T>, x: T): (i: nat)
    requires x in q
    ensures i < |q| && q[i] == x
    ensures forall j :: 0 <= j < i ==> q[j] != x
  {
    if q[0] == x then 0 else 1 + IndexOf(q[1..], x)
  }

  /** `q` with its first `x` erased and every other element left in place. */
  function Without<T(==)>(q: seq<T>, x: T): (r: seq<T>)
    ensures x !in q ==> r == q
    ensures x in q ==> |r| == |q| - 1
    ensures forall y :: y in r ==> y in q
    ensures forall y :: y in q && y != x ==> y in r
    ensures Distinct(q) ==> Distinct(r) && x !in r
  {
    if x in q then
      var i := IndexOf(q, x);
      var r := q[..i] + q[i + 1..];
      assert forall y :: y in q && y != x ==> y in q[..i] || y in q[i + 1..];
      r
    else q
  }

  lemma InLast<T>(q: seq<T>, x: T)
    requires q != []
    ensures x in q <==> x in q[..|q| - 1] || x == q[|q| - 1]
  {
  }

  /** Erasing keeps the order of what stays. */
  lemma WithoutFrom<T>(q: seq<T>, x: T, i: nat, j: nat) returns (a: nat, b: nat)
    requires x in q && i < j < |Without(q, x)|
    ensures a < b < |q| && q[a] == Without(q, x)[i] && q[b] == Without(q, x)[j]
  {
    a := WithoutAt(q, x, i);
    b := WithoutAt(q, x, j);
  }

  lemma WithoutAt<T>(q: seq<T>, x: T, i: nat) returns (a: nat)
    requires x in q && i < |Without(q, x)|
    ensures a == if i < IndexOf(q, x) then i else i + 1
    ensures a < |q| && q[a] == Without(q, x)[i]
  {
    a := if i < IndexOf(q, x) then i else i + 1;
  }

  /** Moving the last element to the back changes nothing. */
  lemma SpliceLast<T>(q: seq<T>, x: T)
    requires x in q && Distinct(q)
    ensures q[|q| - 1] == x ==> Without(q, x) + [x] == q
  {
  }

  lemma Pick<T>(s: set<T>) returns (x: T)
    requires s != {}
    ensures x in s
  {
    x :| x in s;
  }

  function Sum(s: seq<nat>): nat {
    if s == [] then 0 else s[0] + Sum(s[1..])
  }

  lemma {:induction false} SumAppend(a: seq<nat>, b: seq<nat>)
    ensures Sum(a + b) == Sum(a) + Sum(b)
  {
    if a == [] {
      assert a + b == b;
    } else {
      assert (a + b)[1..] == a[1..] + b;
      SumAppend(a[1..], b);
    }
  }

  lemma SumErase(s: seq<nat>, i: nat)
    requires i < |s|
    ensures Sum(s) == s[i] + Sum(s[..i] + s[i + 1..])
  {
    assert s == s[..i] + ([s[i]] + s[i + 1..]);
    SumAppend(s[..i], [s[i]] + s[i + 1..]);
    SumAppend([s[i]], s[i + 1..]);
    SumAppend(s[..i], s[i + 1..]);
  }

  lemma SumReplace(s: seq<nat>, i: nat, v: nat)
    requires i < |s|
    ensures Sum(s[i := v]) + s[i] == Sum(s) + v
  {
    SumErase(s, i);
    SumErase(s[i := v], i);
    assert s[i := v][..i] == s[..i] && s[i := v][i + 1..] == s[i + 1..];
  }
}
