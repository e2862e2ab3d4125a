/**
 * The single-producer single-consumer ring buffer as a transition system.
 * Each atomic load, slot access and atomic store is its own step, so a run is
 * any interleaving of the two threads; a step its thread is not ready for does
 * nothing. Atomics are sequentially consistent. `drop_one` is a consumer call.
 */
module SpscQueue {
  import opened Seqs

  datatype Producer<T> =
    | Idle
    | GotHead(h: nat, v: T)   // head loaded
    | Clear(h: nat, v: T)     // tail loaded and found different from the next slot
    | Filled(h: nat, v: T)    // slot written, head not yet stored

  datatype Consumer<T> =
    | Resting
    | GotTail(t: nat, drop: bool)
    | Ready(t: nat, drop: bool)   // head loaded and found different from tail
    | Holding(t: nat, out: T)     // slot moved out, tail not yet stored

  /** `pushed` and `taken` record published pushes and finished removals; a drop removes without reading. */
  datatype Queue<T> = Queue(
    cap: nat, buf: seq<T>, head: nat, tail: nat,
    producer: Producer<T>, consumer: Consumer<T>,
    pushed: seq<T>, taken: seq<Option<T>>)

  datatype Event<T> =
    | LoadHead(v: T) | CheckTail | WriteSlot | StoreHead
    | LoadTail(drop: bool) | CheckHead | MoveSlot(junk: T) | StoreTail

  function Init<T>(buf: seq<T>): Queue<T> {
    Queue(|buf|, buf, 0, 0, Idle, Resting, [], [])
  }

  function Step<T>(q: Queue<T>, e: Event<T>): Queue<T>
    requires q.cap > 0 && |q.buf| == q.cap
  {
    match (e, q.producer, q.consumer)
    case (LoadHead(v), Idle, _) => q.(producer := GotHead(q.head, v))
    case (CheckTail, GotHead(h, v), _) =>
      if (h + 1) % q.cap == q.tail then q.(producer := Idle) else q.(producer := Clear(h, v))
    case (WriteSlot, Clear(h, v), _) =>
      if h < q.cap then q.(buf := q.buf[h := v], producer := Filled(h, v)) else q
    case (StoreHead, Filled(h, v), _) =>
      q.(head := (h + 1) % q.cap, producer := Idle, pushed := q.pushed + [v])
    case (LoadTail(drop), _, Resting) => q.(consumer := GotTail(q.tail, drop))
    case (CheckHead, _, GotTail(t, drop)) =>
      if t == q.head then q.(consumer := Resting) else q.(consumer := Ready(t, drop))
    case (MoveSlot(junk), _, Ready(t, drop)) =>
      if !drop && t < q.cap then q.(buf := q.buf[t := junk], consumer := Holding(t, q.buf[t])) else q
    case (StoreTail, _, Holding(t, out)) =>
      q.(tail := (t + 1) % q.cap, consumer := Resting, taken := q.taken + [Some(out)])
    case (StoreTail, _, Ready(t, drop)) =>
      if drop then q.(tail := (t + 1) % q.cap, consumer := Resting, taken := q.taken + [None]) else q
    case _ => q
  }

  // ---------- The invariant ----------

  predicate Live<T>(q: Queue<T>, i: int) {
    |q.taken| <= i < |q.pushed| && (i == |q.taken| ==> !q.consumer.Holding?)
  }

  ghost predicate Counters<T>(q: Queue<T>) {
    && q.cap > 0 && |q.buf| == q.cap
    && |q.taken| <= |q.pushed| < |q.taken| + q.cap
    && q.head == |q.pushed| % q.cap && q.tail == |q.taken| % q.cap
  }

  /** What each thread knows at its program point. */
  ghost predicate Points<T>(q: Queue<T>) {
    && (!q.producer.Idle? ==> q.producer.h == q.head)
    && (q.producer.Clear? || q.producer.Filled? ==> |q.pushed| + 1 < |q.taken| + q.cap)
    && (q.producer.Filled? ==> q.head < |q.buf| && q.buf[q.head] == q.producer.v)
    && (!q.consumer.Resting? ==> q.consumer.t == q.tail)
    && (q.consumer.Ready? || q.consumer.Holding? ==> |q.taken| < |q.pushed|)
    && (q.consumer.Holding? ==> q.consumer.out == q.pushed[|q.taken|])
  }

  ghost predicate Slots<T>(q: Queue<T>)
    requires Counters(q)
  {
    forall i {:trigger Live(q, i)} :: Live(q, i) ==> q.buf[i % q.cap] == q.pushed[i]
  }

  /** Removal number `i` removed push number `i`. */
  ghost predicate Fifo<T>(q: Queue<T>)
    requires Counters(q)
  {
    forall i :: 0 <= i < |q.taken| && q.taken[i].Some? ==> q.taken[i].value == q.pushed[i]
  }

  ghost predicate Inv<T>(q: Queue<T>) {
    Counters(q) && Points(q) && Slots(q) && Fifo(q)
  }

  // ---------- Ring arithmetic ----------

  lemma MulBounds(cap: int, k: int)
    requires cap >= 0
    ensures k >= 1 ==> cap * k >= cap
    ensures k <= 0 ==> cap * k <= 0
    ensures k <= -1 ==> cap * k <= -cap
  {
  }

  lemma RingApart(i: nat, j: nat, cap: nat)
    requires i < j < i + cap
    ensures i % cap != j % cap
  {
    var k := j / cap - i / cap;
    assert cap * k == cap * (j / cap) - cap * (i / cap);
    MulBounds(cap, k);
  }

  lemma DivModUnique(n: nat, cap: nat, k: nat, r: nat)
    requires r < cap && n == cap * k + r
    ensures n % cap == r
  {
    var d := n / cap - k;
    assert cap * d == cap * (n / cap) - cap * k;
    MulBounds(cap, d);
  }

  lemma RingTurn(i: nat, cap: nat)
    requires cap > 0
    ensures (i + cap) % cap == i % cap
  {
    assert cap * (i / cap + 1) == cap * (i / cap) + cap;
    DivModUnique(i + cap, cap, i / cap + 1, i % cap);
  }

  lemma RingNext(i: nat, cap: nat)
    requires cap > 0
    ensures (i % cap + 1) % cap == (i + 1) % cap
  {
    var r, k := i % cap, i / cap;
    if r + 1 < cap {
      DivModUnique(i + 1, cap, k, r + 1);
      DivModUnique(r + 1, cap, 0, r + 1);
    } else {
      assert cap * (k + 1) == cap * k + cap;
      DivModUnique(i + 1, cap, k + 1, 0);
      DivModUnique(r + 1, cap, 1, 0);
    }
  }

  // ---------- Every step of every interleaving keeps it ----------

  /** The slot the producer is about to write holds no live item, nor the one being moved out. */
  lemma WriteIsSafe<T>(q: Queue<T>, i: nat)
    requires Inv(q) && (q.producer.Clear? || q.producer.Filled?) && |q.taken| <= i < |q.pushed|
    ensures i % q.cap != q.producer.h
  {
    RingApart(i, |q.pushed|, q.cap);
  }

  lemma WriteSlotStep<T>(q: Queue<T>)
    requires Inv(q)
    ensures Inv(Step(q, WriteSlot))
  {
    var r := Step(q, WriteSlot);
    forall i | Live(r, i) ensures r.buf[i % r.cap] == r.pushed[i] {
      assert Live(q, i);
      if q.producer.Clear? { WriteIsSafe(q, i); }
    }
  }

  lemma StoreHeadStep<T>(q: Queue<T>)
    requires Inv(q)
    ensures Inv(Step(q, StoreHead))
  {
    var r := Step(q, StoreHead);
    RingNext(|q.pushed|, q.cap);
    forall i | Live(r, i) ensures r.buf[i % r.cap] == r.pushed[i] {
      if i < |q.pushed| { assert Live(q, i); }
    }
  }

  lemma ProducerStep<T>(q: Queue<T>, e: Event<T>)
    requires Inv(q) && (e.LoadHead? || e.CheckTail? || e.WriteSlot? || e.StoreHead?)
    ensures Inv(Step(q, e))
  {
    if e.WriteSlot? {
      WriteSlotStep(q);
    } else if e.StoreHead? {
      StoreHeadStep(q);
    } else {
      var r := Step(q, e);
      RingNext(|q.pushed|, q.cap);
      RingTurn(|q.taken|, q.cap);
      forall i | Live(r, i) ensures r.buf[i % r.cap] == r.pushed[i] {
        assert Live(q, i);
      }
    }
  }

  lemma MoveSlotStep<T>(q: Queue<T>, junk: T)
    requires Inv(q)
    ensures Inv(Step(q, MoveSlot(junk)))
  {
    var r := Step(q, MoveSlot(junk));
    if |q.taken| < |q.pushed| { assert Live(q, |q.taken|) || q.consumer.Holding?; }
    if q.consumer.Ready? && q.producer.Filled? { WriteIsSafe(q, |q.taken|); }
    forall i | Live(r, i) ensures r.buf[i % r.cap] == r.pushed[i] {
      assert Live(q, i);
      if |q.taken| < i { RingApart(|q.taken|, i, q.cap); }
    }
  }

  lemma ConsumerStep<T>(q: Queue<T>, e: Event<T>)
    requires Inv(q) && (e.LoadTail? || e.CheckHead? || e.StoreTail?)
    ensures Inv(Step(q, e))
  {
    var r := Step(q, e);
    RingNext(|q.taken|, q.cap);
    forall i | Live(r, i) ensures r.buf[i % r.cap] == r.pushed[i] {
      assert Live(q, i);
    }
  }

  function Run<T>(q: Queue<T>, events: seq<Event<T>>): (r: Queue<T>)
    requires q.cap > 0 && |q.buf| == q.cap
    ensures r.cap == q.cap && |r.buf| == r.cap
  {
    if events == [] then q else Step(Run(q, events[..|events| - 1]), events[|events| - 1])
  }

  /** Safety over every interleaving from an empty queue of any positive capacity. */
  lemma {:induction false} EveryInterleavingIsSafe<T>(buf: seq<T>, events: seq<Event<T>>)
    requires buf != []
    ensures Inv(Run(Init(buf), events))
  {
    if events == [] {
    } else {
      var q, e := Run(Init(buf), events[..|events| - 1]), events[|events| - 1];
      EveryInterleavingIsSafe(buf, events[..|events| - 1]);
      if e.LoadHead? || e.CheckTail? || e.WriteSlot? || e.StoreHead? {
        ProducerStep(q, e);
      } else if e.MoveSlot? {
        MoveSlotStep(q, e.junk);
      } else {
        ConsumerStep(q, e);
      }
    }
  }

  /** Removals are a prefix of the pushes in order, and at most `cap - 1` items are held. */
  lemma FifoAndBounded<T>(buf: seq<T>, events: seq<Event<T>>)
    requires buf != []
    ensures var q := Run(Init(buf), events);
      && |q.taken| <= |q.pushed| <= |q.taken| + |buf| - 1
      && (forall i :: 0 <= i < |q.taken| && q.taken[i].Some? ==> q.taken[i].value == q.pushed[i])
  {
    EveryInterleavingIsSafe(buf, events);
  }

  /** A push is refused exactly when the ring holds `cap - 1` items at the moment tail is loaded. */
  lemma RefusedExactlyWhenFull<T>(q: Queue<T>)
    requires Inv(q) && q.producer.GotHead?
    ensures Step(q, CheckTail).producer.Idle? <==> |q.pushed| - |q.taken| == q.cap - 1
  {
    RingNext(|q.pushed|, q.cap);
    RingTurn(|q.taken|, q.cap);
    if |q.pushed| + 1 < |q.taken| + q.cap {
      RingApart(|q.taken|, |q.pushed| + 1, q.cap);
    }
  }

  /** A pop or drop finds nothing exactly when nothing is held at the moment head is loaded. */
  lemma EmptyExactlyWhenDrained<T>(q: Queue<T>)
    requires Inv(q) && q.consumer.GotTail?
    ensures Step(q, CheckHead).consumer.Resting? <==> |q.pushed| == |q.taken|
  {
    if |q.taken| < |q.pushed| {
      RingApart(|q.taken|, |q.pushed|, q.cap);
    }
  }

  // ---------- Whole calls ----------

  /** The other thread's steps leave a thread's own program point, with what it carries, alone. */
  lemma ThreadsKeepApart<T>(q: Queue<T>, e: Event<T>)
    requires q.cap > 0 && |q.buf| == q.cap
    ensures e.LoadHead? || e.CheckTail? || e.WriteSlot? || e.StoreHead?
      ==> Step(q, e).consumer == q.consumer && Step(q, e).taken == q.taken && Step(q, e).tail == q.tail
    ensures e.LoadTail? || e.CheckHead? || e.MoveSlot? || e.StoreTail?
      ==> Step(q, e).producer == q.producer && Step(q, e).pushed == q.pushed && Step(q, e).head == q.head
  {
  }

  /** A push that runs through publishes its value, unless `cap - 1` items are held. */
  lemma PushPublishes<T>(q: Queue<T>, v: T)
    requires Inv(q) && q.producer.Idle?
    ensures var r := Step(Step(Step(Step(q, LoadHead(v)), CheckTail), WriteSlot), StoreHead);
      && r.producer.Idle? && r.taken == q.taken
      && r.pushed == if |q.pushed| - |q.taken| == q.cap - 1 then q.pushed else q.pushed + [v]
  {
    ProducerStep(q, LoadHead(v));
    RefusedExactlyWhenFull(Step(q, LoadHead(v)));
    ProducerStep(Step(q, LoadHead(v)), CheckTail);
  }

  /** A pop that runs through takes the oldest item, if there is one. */
  lemma PopTakesOldest<T>(q: Queue<T>, junk: T)
    requires Inv(q) && q.consumer.Resting?
    ensures var r := Step(Step(Step(Step(q, LoadTail(false)), CheckHead), MoveSlot(junk)), StoreTail);
      && r.consumer.Resting? && r.pushed == q.pushed
      && r.taken == if q.pushed == [] || |q.taken| == |q.pushed| then q.taken else q.taken + [Some(q.pushed[|q.taken|])]
  {
    var a := Step(q, LoadTail(false));
    var b := Step(a, CheckHead);
    var c := Step(b, MoveSlot(junk));
    ConsumerStep(q, LoadTail(false));
    EmptyExactlyWhenDrained(a);
    ConsumerStep(a, CheckHead);
    MoveSlotStep(b, junk);
  }

  /** A drop that runs through removes the oldest item, if there is one. */
  lemma DropRemovesOldest<T>(q: Queue<T>)
    requires Inv(q) && q.consumer.Resting?
    ensures var r := Step(Step(Step(q, LoadTail(true)), CheckHead), StoreTail);
      && r.consumer.Resting? && r.pushed == q.pushed
      && r.taken == if |q.taken| == |q.pushed| then q.taken else q.taken + [None]
  {
    ConsumerStep(q, LoadTail(true));
    EmptyExactlyWhenDrained(Step(q, LoadTail(true)));
  }
}
