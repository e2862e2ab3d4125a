/** The token bucket that limits subscribe messages: a burst of 20, refilled at 5 a second. */
module RateLimit {

  const BURST := 20.0
  const PER_SEC := 5.0

  datatype Bucket = Bucket(tokens: real, last: real)

  function Refilled(b: Bucket, now: real): real {
    var t := b.tokens + (now - b.last) * PER_SEC;
    if t < BURST then t else BURST
  }

  /** One check at time `now`: the bucket after it, and whether it was granted. */
  function Check(b: Bucket, now: real): (Bucket, bool) {
    var t := Refilled(b, now);
    if t < 1.0 then (Bucket(t, now), false) else (Bucket(t - 1.0, now), true)
  }

  function After(b: Bucket, times: seq<real>): Bucket {
    if times == [] then b else Check(After(b, times[..|times| - 1]), times[|times| - 1]).0
  }

  function Granted(b: Bucket, times: seq<real>): nat {
    if times == [] then 0 else
    var n := |times| - 1;
    Granted(b, times[..n]) + (if Check(After(b, times[..n]), times[n]).1 then 1 else 0)
  }

  /** A clock that does not run backwards, starting no earlier than the last refill. */
  predicate Monotone(b: Bucket, times: seq<real>) {
    && (forall i, j :: 0 <= i < j < |times| ==> times[i] <= times[j])
    && (forall i :: 0 <= i < |times| ==> b.last <= times[i])
  }

  predicate Valid(b: Bucket) {
    0.0 <= b.tokens <= BURST
  }

  /** Tokens spent plus tokens held never exceed what was there plus what flowed in. */
  lemma {:induction false} Budget(b: Bucket, times: seq<real>)
    requires Valid(b) && Monotone(b, times)
    ensures var r := After(b, times);
      && Valid(r) && r.last == (if times == [] then b.last else times[|times| - 1])
      && Granted(b, times) as real + r.tokens <= b.tokens + (r.last - b.last) * PER_SEC
  {
    if times != [] {
      Budget(b, times[..|times| - 1]);
    }
  }

  lemma {:induction false} Splits(b: Bucket, x: seq<real>, y: seq<real>)
    ensures After(b, x + y) == After(After(b, x), y)
    ensures Granted(b, x + y) == Granted(b, x) + Granted(After(b, x), y)
  {
    if y == [] {
      assert x + y == x;
    } else {
      var k := |y| - 1;
      assert (x + y)[..|x + y| - 1] == x + y[..k];
      Splits(b, x, y[..k]);
    }
  }

  lemma OneCheck(b: Bucket, now: real)
    ensures After(b, [now]) == Check(b, now).0 && Granted(b, [now]) == if Check(b, now).1 then 1 else 0
  {
    assert [now][..0] == [];
  }

  /** From any bucket, whatever it holds when the window opens. */
  lemma FreshWindowBound(b: Bucket, window: seq<real>)
    requires Valid(b) && Monotone(b, window) && window != []
    ensures Granted(b, window) as real <= BURST + (window[|window| - 1] - window[0]) * PER_SEC
  {
    var first, rest := window[0], window[1..];
    assert [first] + rest == window;
    Splits(b, [first], rest);
    OneCheck(b, first);
    Budget(Check(b, first).0, rest);
  }

  lemma MonotoneSplits(b: Bucket, x: seq<real>, y: seq<real>)
    requires Valid(b) && Monotone(b, x + y)
    ensures Monotone(b, x) && Monotone(After(b, x), y)
  {
    var all := x + y;
    assert forall i :: 0 <= i < |x| ==> x[i] == all[i];
    assert forall i :: 0 <= i < |y| ==> y[i] == all[|x| + i];
    Budget(b, x);
  }

  /** In any window of any run, from its first check to its last, at most 20 + 5T checks are granted. */
  lemma WindowBound(b: Bucket, before: seq<real>, window: seq<real>)
    requires Valid(b) && Monotone(b, before + window) && window != []
    ensures (Granted(b, before + window) - Granted(b, before)) as real
         <= BURST + (window[|window| - 1] - window[0]) * PER_SEC
  {
    Splits(b, before, window);
    MonotoneSplits(b, before, window);
    Budget(b, before);
    FreshWindowBound(After(b, before), window);
  }

  /** Callers that space their checks by a fifth of a second are never refused. */
  lemma SpacedCallersPass(b: Bucket, now: real)
    requires Valid(b) && now - b.last >= 0.2
    ensures Check(b, now).1 && Valid(Check(b, now).0)
  {
  }

  /** `k` checks at one moment. */
  function AtOnce(now: real, k: nat): seq<real> {
    if k == 0 then [] else AtOnce(now, k - 1) + [now]
  }

  /** One more check at the moment of the last: granted exactly if a whole token is left. */
  lemma CheckAgain(b: Bucket, now: real)
    requires Valid(b) && b.last == now
    ensures Refilled(b, now) == b.tokens
    ensures Check(b, now) == if b.tokens < 1.0 then (b, false) else (Bucket(b.tokens - 1.0, now), true)
  {
  }

  /** At one moment exactly as many checks are granted as there are whole tokens. */
  lemma {:induction false} AtOnceGrants(b: Bucket, now: real, k: nat, whole: nat)
    requires Valid(b) && b.last <= now && k > 0
    requires whole as real <= Refilled(b, now) < whole as real + 1.0
    ensures var granted := if k <= whole then k else whole;
      && Granted(b, AtOnce(now, k)) == granted
      && After(b, AtOnce(now, k)) == Bucket(Refilled(b, now) - granted as real, now)
  {
    assert AtOnce(now, k)[..|AtOnce(now, k)| - 1] == AtOnce(now, k - 1);
    if k > 1 {
      AtOnceGrants(b, now, k - 1, whole);
      CheckAgain(After(b, AtOnce(now, k - 1)), now);
    }
  }

  /** After four idle seconds, or with a full bucket, twenty checks at once are granted and the next is not. */
  lemma FullBurst(b: Bucket, now: real)
    requires Valid(b) && b.last <= now && (b.tokens == 20.0 || now - b.last >= 4.0)
    ensures Granted(b, AtOnce(now, 20)) == 20 && Granted(b, AtOnce(now, 21)) == 20
  {
    AtOnceGrants(b, now, 20, 20);
    AtOnceGrants(b, now, 21, 20);
  }

  /** The limiter as the session holds it; the clock reading is passed in. */
  class Limiter {
    var tokens: real
    var lastRefill: real

    function St(): Bucket
      reads this
    {
      Bucket(tokens, lastRefill)
    }

    constructor (now: real)
      ensures St() == Bucket(BURST, now) && Valid(St())
    {
      tokens, lastRefill := BURST, now;
    }

    method RateLimitCheck(now: real) returns (granted: bool)
      requires Valid(St()) && lastRefill <= now
      modifies this
      ensures Valid(St()) && (St(), granted) == Check(old(St()), now)
    {
      var elapsed := now - lastRefill;
      lastRefill := now;
      var t := tokens + elapsed * PER_SEC;
      tokens := if t < BURST then t else BURST;
      if tokens < 1.0 { return false; }
      tokens := tokens - 1.0;
      return true;
    }
  }
}
