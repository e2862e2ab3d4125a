/** The gap and stale machine of the feed, over whole runs of manager calls. */
module Staleness {
  import opened Seqs
  import opened BookTypes
  import opened PlainBooks
  import opened ManagerSpec

  ghost function Run(g: Grid, st: Sym, calls: seq<(Call, Side)>): (r: Sym)
    requires g.tick > 0.0 && WellFormed(st.book)
    ensures WellFormed(r.book)
  {
    if calls == [] then st else
    var n := |calls| - 1;
    Step(g, Run(g, st, calls[..n]), calls[n].0, calls[n].1).sym
  }

  predicate IsSnapshot(c: Call) {
    c.OrdersSnapshot? || c.LevelsSnapshot?
  }

  /** From a stale symbol, until a snapshot, nothing touches the books and nothing is published. */
  lemma {:induction false} StaleUntilSnapshot(g: Grid, st: Sym, calls: seq<(Call, Side)>)
    requires g.tick > 0.0 && WellFormed(st.book) && st.feed.stale
    requires forall i :: 0 <= i < |calls| ==> !IsSnapshot(calls[i].0)
    ensures var r := Run(g, st, calls);
      r.feed.stale && r.book == st.book && r.agg == st.agg && r.counters == st.counters && r.pubSeq == st.pubSeq
  {
    if calls != [] {
      StaleUntilSnapshot(g, st, calls[..|calls| - 1]);
    }
  }

  /** The feed state follows from the calls alone. */
  function FeedRun(f: FeedState, calls: seq<(Call, Side)>): FeedState {
    if calls == [] then f else FeedAfter(FeedRun(f, calls[..|calls| - 1]), calls[|calls| - 1].0)
  }

  lemma {:induction false} FeedRunIsRun(g: Grid, st: Sym, calls: seq<(Call, Side)>)
    requires g.tick > 0.0 && WellFormed(st.book)
    ensures Run(g, st, calls).feed == FeedRun(st.feed, calls)
  {
    if calls != [] {
      FeedRunIsRun(g, st, calls[..|calls| - 1]);
    }
  }

  /** The non-zero sequence numbers a run accepts, in order. */
  function Accepted(f: FeedState, calls: seq<(Call, Side)>): seq<nat> {
    if calls == [] then [] else
    var n := |calls| - 1;
    var c := calls[n].0;
    if c.SeqCall? && c.seqNo != 0 && OnSeq(FeedRun(f, calls[..n]), c.seqNo).1
    then Accepted(f, calls[..n]) + [c.seqNo]
    else Accepted(f, calls[..n])
  }

  /** Between snapshots and resets the accepted numbers are consecutive, starting after the last one. */
  lemma {:induction false} AcceptedConsecutive(f: FeedState, calls: seq<(Call, Side)>)
    requires forall i :: 0 <= i < |calls| ==> !IsSnapshot(calls[i].0) && !calls[i].0.ResetCall?
    ensures var a := Accepted(f, calls);
      && (forall i :: 0 < i < |a| ==> a[i] == a[i - 1] + 1)
      && (a != [] && f.lastSeq != 0 ==> a[0] == f.lastSeq + 1)
      && FeedRun(f, calls).lastSeq == (if a == [] then f.lastSeq else a[|a| - 1])
      && (forall i :: 0 <= i < |a| ==> a[i] != 0)
  {
    if calls != [] {
      AcceptedConsecutive(f, calls[..|calls| - 1]);
    }
  }

  /** A gap is terminal until a snapshot or reset: nothing more is accepted after it. */
  lemma {:induction false} NothingAcceptedWhileStale(f: FeedState, calls: seq<(Call, Side)>)
    requires f.stale && forall i :: 0 <= i < |calls| ==> !IsSnapshot(calls[i].0)
    ensures FeedRun(f, calls).stale && Accepted(f, calls) == []
  {
    if calls != [] {
      NothingAcceptedWhileStale(f, calls[..|calls| - 1]);
    }
  }

  /** The last call of a run that asked for a snapshot. */
  ghost predicate AskedAt(f: FeedState, calls: seq<(Call, Side)>, n: nat)
    requires n < |calls|
  {
    Asks(FeedRun(f, calls[..n]), calls[n].0) && forall i :: n <= i < |calls| ==> !IsSnapshot(calls[i].0)
  }

  /** A symbol that became stale has asked for a snapshot since the last one it got. */
  lemma {:induction false} StaleHasAsked(f: FeedState, calls: seq<(Call, Side)>) returns (n: nat)
    requires !f.stale && FeedRun(f, calls).stale
    ensures n < |calls| && AskedAt(f, calls, n)
  {
    n := |calls| - 1;
    var pre := calls[..n];
    if FeedRun(f, pre).stale && !Asks(FeedRun(f, pre), calls[n].0) {
      n := StaleHasAsked(f, pre);
      assert pre[..n] == calls[..n];
      assert forall i :: n <= i < |pre| ==> pre[i] == calls[i];
    }
  }

  /** And it asks only when it is stale afterwards. */
  lemma AskedIsStale(g: Grid, st: Sym, c: Call, junk: Side)
    requires g.tick > 0.0 && WellFormed(st.book)
    ensures Step(g, st, c, junk).asked ==> Step(g, st, c, junk).sym.feed.stale
    ensures !st.feed.stale && Step(g, st, c, junk).sym.feed.stale ==> Step(g, st, c, junk).asked
  {
  }

  // ---------- Which numbers are accepted ----------

  /** The numbers a run of calls brings, in order. */
  function Numbers(calls: seq<(Call, Side)>): seq<nat> {
    if calls == [] then [] else
    var n := |calls| - 1;
    Numbers(calls[..n]) + if calls[n].0.SeqCall? then [calls[n].0.seqNo] else []
  }

  /** Number `i` is not the successor of the one before it, and that one is not 0. `last` stands before the first. */
  predicate Gap(last: nat, nums: seq<nat>, i: nat)
    requires i < |nums|
  {
    var before := if i == 0 then last else nums[i - 1];
    before != 0 && nums[i] != before + 1
  }

  predicate AnyGap(last: nat, nums: seq<nat>) {
    exists i :: 0 <= i < |nums| && Gap(last, nums, i)
  }

  predicate NoReload(calls: seq<(Call, Side)>) {
    forall i :: 0 <= i < |calls| ==> !IsSnapshot(calls[i].0) && !calls[i].0.ResetCall?
  }

  lemma AnyGapPush(last: nat, nums: seq<nat>, x: nat)
    ensures AnyGap(last, nums + [x]) <==> AnyGap(last, nums) || Gap(last, nums + [x], |nums|)
  {
    var more := nums + [x];
    if i :| 0 <= i < |more| && Gap(last, more, i) {
      assert i < |nums| ==> Gap(last, nums, i);
    }
    if i :| 0 <= i < |nums| && Gap(last, nums, i) {
      assert Gap(last, more, i);
    }
  }

  /** What the numbers alone say of the feed state. */
  ghost predicate FollowsNumbers(last: nat, epoch: nat, nums: seq<nat>, f: FeedState) {
    && (f.stale <==> AnyGap(last, nums)) && f.epoch == epoch
    && (!f.stale ==> f.lastSeq == if nums == [] then last else nums[|nums| - 1])
  }

  lemma NextNumber(last: nat, epoch: nat, nums: seq<nat>, f: FeedState, x: nat)
    requires FollowsNumbers(last, epoch, nums, f)
    ensures FollowsNumbers(last, epoch, nums + [x], OnSeq(f, x).0)
    ensures OnSeq(f, x).1 <==> !AnyGap(last, nums + [x])
  {
    AnyGapPush(last, nums, x);
  }

  lemma {:induction false} FeedFollowsNumbers(f: FeedState, calls: seq<(Call, Side)>)
    requires !f.stale && NoReload(calls)
    ensures FollowsNumbers(f.lastSeq, f.epoch, Numbers(calls), FeedRun(f, calls))
  {
    if calls != [] {
      var n := |calls| - 1;
      FeedFollowsNumbers(f, calls[..n]);
      if calls[n].0.SeqCall? {
        NextNumber(f.lastSeq, f.epoch, Numbers(calls[..n]), FeedRun(f, calls[..n]), calls[n].0.seqNo);
      } else {
        assert Numbers(calls[..n]) + [] == Numbers(calls[..n]);
      }
    }
  }

  /** The state a run without snapshots and resets leaves, from its numbers alone: stale exactly if there was a gap. */
  lemma StaleIffGap(g: Grid, st: Sym, calls: seq<(Call, Side)>)
    requires g.tick > 0.0 && WellFormed(st.book) && !st.feed.stale && NoReload(calls)
    ensures FollowsNumbers(st.feed.lastSeq, st.feed.epoch, Numbers(calls), Run(g, st, calls).feed)
  {
    FeedRunIsRun(g, st, calls);
    FeedFollowsNumbers(st.feed, calls);
  }

  /**
   * A number is accepted exactly when neither it nor any number before it is a
   * gap, and a snapshot is asked for exactly at the first gap.
   */
  lemma AcceptedIff(g: Grid, st: Sym, calls: seq<(Call, Side)>, seqNo: nat, junk: Side)
    requires g.tick > 0.0 && WellFormed(st.book) && !st.feed.stale && NoReload(calls)
    ensures var r, nums := Step(g, Run(g, st, calls), SeqCall(seqNo), junk), Numbers(calls);
      && (r.ok <==> !AnyGap(st.feed.lastSeq, nums + [seqNo]))
      && (r.asked <==> !AnyGap(st.feed.lastSeq, nums) && Gap(st.feed.lastSeq, nums + [seqNo], |nums|))
  {
    StaleIffGap(g, st, calls);
    AnyGapPush(st.feed.lastSeq, Numbers(calls), seqNo);
  }

  function Count(n: nat, k: nat): seq<(Call, Side)> {
    if k == 0 then [] else Count(n, k - 1) + [(SeqCall(n + k), Bid)]
  }

  lemma {:induction false} CountNumbers(n: nat, k: nat)
    ensures NoReload(Count(n, k)) && |Numbers(Count(n, k))| == k
    ensures forall i :: 0 <= i < k ==> Numbers(Count(n, k))[i] == n + 1 + i
  {
    if k > 0 {
      CountNumbers(n, k - 1);
      assert Count(n, k)[..|Count(n, k)| - 1] == Count(n, k - 1);
    }
  }

  /** From a known number on, its successors are all accepted, leave the symbol not stale and ask for nothing. */
  lemma SuccessorsAccepted(g: Grid, st: Sym, k: nat)
    requires g.tick > 0.0 && WellFormed(st.book) && !st.feed.stale && st.feed.lastSeq != 0
    ensures var n := st.feed.lastSeq;
      var before := Run(g, st, Count(n, k));
      var r := Step(g, before, SeqCall(n + k + 1), Bid);
      && !before.feed.stale && before.feed.lastSeq == n + k
      && r.ok && !r.asked && !r.sym.feed.stale && r.sym.feed.lastSeq == n + k + 1
  {
    var n := st.feed.lastSeq;
    CountNumbers(n, k);
    var nums := Numbers(Count(n, k));
    assert forall i :: 0 <= i < k ==> !Gap(n, nums, i);
    StaleIffGap(g, st, Count(n, k));
    AcceptedIff(g, st, Count(n, k), n + k + 1, Bid);
    assert !Gap(n, nums + [n + k + 1], k);
    AnyGapPush(n, nums, n + k + 1);
  }

  /** After a snapshot numbered `n`, whatever the state before it, the next number accepted is its successor alone. */
  lemma AfterSnapshot(g: Grid, st: Sym, c: Call, n: nat, calls: seq<(Call, Side)>, seqNo: nat, junk: Side)
    requires g.tick > 0.0 && WellFormed(st.book) && IsSnapshot(c) && c.snapSeq == Some(n) && n != 0
    requires NoReload(calls) && Numbers(calls) == []
    ensures var r := Step(g, Run(g, Step(g, st, c, junk).sym, calls), SeqCall(seqNo), junk);
      r.ok <==> seqNo == n + 1
  {
    var s := Step(g, st, c, junk).sym;
    AcceptedIff(g, s, calls, seqNo, junk);
    AnyGapPush(n, [], seqNo);
    assert [] + [seqNo] == [seqNo] && !AnyGap(n, []);
  }

  /** The epoch of the last reset in a run, or what it was. */
  function LastEpoch(epoch: nat, calls: seq<(Call, Side)>): nat {
    if calls == [] then epoch else
    var n := |calls| - 1;
    if calls[n].0.ResetCall? then calls[n].0.epoch else LastEpoch(epoch, calls[..n])
  }

  /** In every run the epoch is that of the last reset. */
  lemma {:induction false} EpochIsLastReset(g: Grid, st: Sym, calls: seq<(Call, Side)>)
    requires g.tick > 0.0 && WellFormed(st.book)
    ensures Run(g, st, calls).feed.epoch == LastEpoch(st.feed.epoch, calls)
  {
    if calls != [] { EpochIsLastReset(g, st, calls[..|calls| - 1]); }
  }

  /** A reset leaves the symbol stale, and a snapshot without a number then leaves any number acceptable. */
  lemma ResetForgets(g: Grid, st: Sym, epoch: nat, c: Call, seqNo: nat, junk: Side)
    requires g.tick > 0.0 && WellFormed(st.book) && IsSnapshot(c) && c.snapSeq.None?
    ensures var r := Step(g, st, ResetCall(epoch), junk);
      r.asked && r.sym.feed.stale && Step(g, Step(g, r.sym, c, junk).sym, SeqCall(seqNo), junk).ok
  {
  }
}
