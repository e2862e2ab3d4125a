/**
 * A client session: its outbound write machine, its request trees and its
 * close. Handlers run one at a time on the session's strand; an asynchronous
 * write borrows the front cell of the outbox until its completion handler
 * runs. Cells have identities so that a moved or freed buffer would show, and
 * every write started and not yet completed is listed, so that a second one
 * would show.
 */
module Outbox {
  import opened Seqs

  const MAX_OUTBOX := 4096
  const MAX_SUBSCRIPTIONS := 256

  // ---------- Request trees ----------

  /** The tree installed under each key, and every tree built and not yet shut down with the key it was built for. */
  datatype Requests = Requests(active: map<string, nat>, running: map<nat, string>, nextTree: nat)

  const NO_REQUESTS := Requests(map[], map[], 0)

  function Cancelled(r: Requests, key: string): Requests {
    if key !in r.active then r
    else r.(active := r.active - {key}, running := r.running - {r.active[key]})
  }

  /** A subscription replaces and shuts down the tree under the same key; a new key is refused at the limit. */
  function Installed(r: Requests, key: string): Requests {
    if key !in r.active && |r.active| >= MAX_SUBSCRIPTIONS then r else Added(Cancelled(r, key), key)
  }

  function Added(r: Requests, key: string): Requests {
    Requests(r.active[key := r.nextTree], r.running[r.nextTree := key], r.nextTree + 1)
  }

  function ShutDown(r: Requests): Requests {
    r.(active := map[], running := r.running - r.active.Values)
  }

  ghost predicate KeyOk(r: Requests, k: string)
    requires k in r.active
  {
    r.active[k] in r.running && r.running[r.active[k]] == k
  }

  ghost predicate TreeOk(r: Requests, x: nat)
    requires x in r.running
  {
    x < r.nextTree && r.running[x] in r.active && r.active[r.running[x]] == x
  }

  /** No tree leaks: the trees running and the trees installed are in bijection. */
  ghost predicate NoLeak(r: Requests) {
    && (forall k {:trigger KeyOk(r, k)} :: k in r.active ==> KeyOk(r, k))
    && (forall x {:trigger TreeOk(r, x)} :: x in r.running ==> TreeOk(r, x))
  }

  ghost predicate Limited(r: Requests) {
    |r.active| <= MAX_SUBSCRIPTIONS
  }

  lemma AddedKeeps(r: Requests, key: string)
    requires NoLeak(r) && key !in r.active
    ensures NoLeak(Added(r, key))
  {
    var t := Added(r, key);
    forall k | k in t.active ensures KeyOk(t, k) {
      if k != key { assert KeyOk(r, k) && TreeOk(r, r.active[k]); }
    }
    forall x | x in t.running ensures TreeOk(t, x) {
      if x != r.nextTree { assert TreeOk(r, x); }
    }
  }

  lemma CancelledKeeps(r: Requests, key: string)
    requires NoLeak(r)
    ensures NoLeak(Cancelled(r, key))
  {
    var t := Cancelled(r, key);
    if key in r.active {
      assert KeyOk(r, key);
      forall k | k in t.active ensures KeyOk(t, k) { assert KeyOk(r, k); }
      forall x | x in t.running ensures TreeOk(t, x) { assert TreeOk(r, x); }
    }
  }

  lemma ShutDownKeeps(r: Requests)
    requires NoLeak(r)
    ensures NoLeak(ShutDown(r)) && ShutDown(r).running == map[] && Limited(ShutDown(r))
  {
    forall x | x in r.running ensures x in r.active.Values {
      assert TreeOk(r, x);
    }
  }

  lemma Sizes(m: map<string, nat>, key: string, x: nat)
    ensures key in m ==> |m - {key}| == |m| - 1
    ensures key !in m ==> |m[key := x]| == |m| + 1
  {
    var less, more := m - {key}, m[key := x];
    assert less.Keys == m.Keys - {key} && more.Keys == m.Keys + {key};
    assert |less| == |less.Keys| && |m| == |m.Keys| && |more| == |more.Keys|;
  }

  lemma LimitKept(r: Requests, key: string)
    requires Limited(r)
    ensures Limited(Installed(r, key)) && Limited(Cancelled(r, key))
  {
    Sizes(r.active, key, r.nextTree);
    Sizes(Cancelled(r, key).active, key, r.nextTree);
  }

  lemma InstalledKeeps(r: Requests, key: string)
    requires NoLeak(r)
    ensures NoLeak(Installed(r, key))
  {
    CancelledKeeps(r, key);
    if Installed(r, key) != r { AddedKeeps(Cancelled(r, key), key); }
  }

  /** The key has a new tree, the one it had is shut down, and no other is touched. */
  ghost predicate Replaces(r: Requests, t: Requests, key: string) {
    && key in t.active && t.active[key] !in r.running && t.active - {key} == r.active - {key}
    && (forall x :: x in t.running <==>
          x == t.active[key] || (x in r.running && !(key in r.active && x == r.active[key])))
  }

  lemma InstalledMeans(r: Requests, key: string)
    requires NoLeak(r) && (key in r.active || |r.active| < 256)
    ensures Replaces(r, Installed(r, key), key)
  {
    forall x | x in r.running ensures x < r.nextTree { assert TreeOk(r, x); }
    var c := Cancelled(r, key);
    CancelledMeans(r, key);
    AddedMeans(c, key);
  }

  /** The key's tree, if it has one, is shut down and no other is touched. */
  lemma CancelledMeans(r: Requests, key: string)
    ensures var c := Cancelled(r, key);
      && c.active == r.active - {key} && c.nextTree == r.nextTree
      && (forall x :: x in c.running <==> x in r.running && !(key in r.active && x == r.active[key]))
  {
  }

  lemma AddedMeans(c: Requests, key: string)
    ensures var t := Added(c, key);
      && key in t.active && t.active[key] == c.nextTree && t.active - {key} == c.active - {key}
      && (forall x :: x in t.running <==> x == c.nextTree || x in c.running)
  {
  }

  // ---------- The session ----------

  datatype Cell = Cell(id: nat, text: string)

  /**
   * `inFlight` lists the cells borrowed by writes started and not yet
   * completed, `closes` counts the closing handshakes started. `accepted` and
   * `completed` record the messages taken in and the writes reported successful.
   */
  datatype State = State(
    open: bool, writing: bool, outbox: seq<Cell>, inFlight: seq<nat>, nextId: nat,
    accepted: seq<string>, completed: seq<string>,
    requests: Requests, closes: nat, registered: bool)

  /** A session just accepted by the server. */
  const OPENED := State(true, false, [], [], 0, [], [], NO_REQUESTS, 0, true)

  datatype Event =
    | Send(text: string)
    | WriteDone(ok: bool)   // only while a write is in flight
    | Close
    | CloseDone             // only after a closing handshake was started
    | Subscribe(key: string)
    | Cancel(key: string)

  function StartWrite(s: State): State {
    if !s.open then s.(writing := false, outbox := [])
    else if s.outbox == [] then s.(writing := false)
    else s.(inFlight := s.inFlight + [s.outbox[0].id])
  }

  /** Only the first close shuts the trees down and starts the handshake. */
  function Closed(s: State): State {
    if !s.open then s else s.(open := false, requests := ShutDown(s.requests), closes := s.closes + 1)
  }

  function Step(s: State, e: Event): State {
    match e
    case Send(text) =>
      if !s.open then s
      else if |s.outbox| >= MAX_OUTBOX then Closed(s)
      else
        var t := s.(outbox := s.outbox + [Cell(s.nextId, text)], nextId := s.nextId + 1,
                    accepted := s.accepted + [text]);
        if t.writing then t else StartWrite(t.(writing := true))
    case WriteDone(ok) =>
      if s.inFlight == [] then s
      else
        var t := s.(inFlight := s.inFlight[1..]);
        if !ok then Closed(t)
        else if t.outbox == [] then StartWrite(t)
        else StartWrite(t.(outbox := t.outbox[1..], completed := t.completed + [t.outbox[0].text]))
    case Close => Closed(s)
    case CloseDone => if s.closes == 0 then s else s.(registered := false)
    case Subscribe(key) => s.(requests := Installed(s.requests, key))
    case Cancel(key) => s.(requests := Cancelled(s.requests, key))
  }

  function Run(s: State, events: seq<Event>): State {
    if events == [] then s else Step(Run(s, events[..|events| - 1]), events[|events| - 1])
  }

  // ---------- The invariant ----------

  function Texts(cells: seq<Cell>): seq<string> {
    seq(|cells|, i requires 0 <= i < |cells| => cells[i].text)
  }

  /** At most one write is in flight, and the buffer it borrows is the front cell, alive and in place. */
  ghost predicate OneWrite(s: State) {
    && |s.inFlight| <= 1
    && (s.inFlight != [] ==> s.writing && s.outbox != [] && s.inFlight == [s.outbox[0].id])
    && (s.open ==> s.writing == (s.inFlight != []) == (s.outbox != []))
  }

  /** Nothing is lost, duplicated or reordered. */
  ghost predicate InOrder(s: State) {
    && |s.outbox| <= MAX_OUTBOX
    && (forall i, j :: 0 <= i < j < |s.outbox| ==> s.outbox[i].id < s.outbox[j].id)
    && (forall i :: 0 <= i < |s.outbox| ==> s.outbox[i].id < s.nextId)
    && (s.open || s.inFlight != [] ==> s.completed + Texts(s.outbox) == s.accepted)
    && s.completed <= s.accepted
  }

  ghost predicate Inv(s: State) {
    && OneWrite(s) && InOrder(s) && NoLeak(s.requests) && Limited(s.requests)
    // the handshake starts exactly once, when the session closes
    && s.closes == (if s.open then 0 else 1) && (s.open ==> s.registered)
  }

  lemma TextsTail(cells: seq<Cell>)
    requires cells != []
    ensures Texts(cells) == [cells[0].text] + Texts(cells[1..])
  {
  }

  lemma SendKeeps(s: State, text: string)
    requires Inv(s)
    ensures Inv(Step(s, Send(text)))
  {
    if s.open && |s.outbox| < MAX_OUTBOX {
      assert Texts(s.outbox + [Cell(s.nextId, text)]) == Texts(s.outbox) + [text];
    } else {
      ShutDownKeeps(s.requests);
    }
  }

  lemma WriteDoneKeeps(s: State, ok: bool)
    requires Inv(s)
    ensures Inv(Step(s, WriteDone(ok)))
  {
    ShutDownKeeps(s.requests);
    if s.inFlight != [] {
      TextsTail(s.outbox);
      assert s.completed + [s.outbox[0].text] + Texts(s.outbox[1..]) == s.completed + Texts(s.outbox);
      assert s.completed + [s.outbox[0].text] <= s.accepted;
    }
  }

  lemma StepKeeps(s: State, e: Event)
    requires Inv(s)
    ensures Inv(Step(s, e))
  {
    match e
    case Send(text) => SendKeeps(s, text);
    case WriteDone(ok) => WriteDoneKeeps(s, ok);
    case Subscribe(key) => InstalledKeeps(s.requests, key); LimitKept(s.requests, key);
    case Cancel(key) => CancelledKeeps(s.requests, key); LimitKept(s.requests, key);
    case Close => ShutDownKeeps(s.requests);
    case CloseDone =>
  }

  /** In every run of sends, completions, closes, subscriptions and cancellations. */
  lemma {:induction false} EveryRunKeeps(events: seq<Event>)
    ensures Inv(Run(OPENED, events))
  {
    if events != [] {
      EveryRunKeeps(events[..|events| - 1]);
      StepKeeps(Run(OPENED, events[..|events| - 1]), events[|events| - 1]);
    }
  }

  /** Until its completion runs, no event moves, frees or replaces the borrowed buffer or starts a second write. */
  lemma PendingIsStable(s: State, e: Event)
    requires Inv(s) && s.inFlight != [] && !e.WriteDone?
    ensures var t := Step(s, e);
      t.inFlight == s.inFlight && t.outbox != [] && t.outbox[0] == s.outbox[0]
  {
  }

  function Acks(n: nat): seq<Event> {
    if n == 0 then [] else Acks(n - 1) + [WriteDone(true)]
  }

  /** While open, as many successful completions as messages waiting deliver everything accepted. */
  lemma {:induction false} AllDelivered(s: State, n: nat)
    requires Inv(s) && s.open && n <= |s.outbox|
    ensures var t := Run(s, Acks(n));
      && Inv(t) && t.open && t.accepted == s.accepted && t.outbox == s.outbox[n..]
      && (n == |s.outbox| ==> t.completed == s.accepted && !t.writing)
  {
    if n > 0 {
      AllDelivered(s, n - 1);
      assert Acks(n)[..|Acks(n)| - 1] == Acks(n - 1);
      AckTakesFront(Run(s, Acks(n - 1)));
      assert s.outbox[n - 1..][1..] == s.outbox[n..];
    }
    assert Texts([]) == [];
  }

  lemma AckTakesFront(s: State)
    requires Inv(s) && s.open && s.outbox != []
    ensures var t := Step(s, WriteDone(true));
      Inv(t) && t.open && t.accepted == s.accepted && t.outbox == s.outbox[1..]
  {
    StepKeeps(s, WriteDone(true));
  }

  // ---------- Nothing sent is lost ----------

  /** The texts sent in a run, in order. */
  function Sent(events: seq<Event>): seq<string> {
    if events == [] then [] else
    var n := |events| - 1;
    Sent(events[..n]) + if events[n].Send? then [events[n].text] else []
  }

  /** Sends less successful completions: how many messages wait while nothing closes the session. */
  function Waiting(events: seq<Event>): nat {
    if events == [] then 0 else
    var n := |events| - 1;
    var d := Waiting(events[..n]);
    match events[n]
    case Send(_) => d + 1
    case WriteDone(ok) => if ok && d > 0 then d - 1 else d
    case _ => d
  }

  /** Event `n` closes an open session: a close, a failed write, or a send when 4096 messages wait. */
  predicate Ending(events: seq<Event>, n: nat)
    requires n < |events|
  {
    match events[n]
    case Close => true
    case WriteDone(ok) => !ok && Waiting(events[..n]) > 0
    case Send(_) => Waiting(events[..n]) >= 4096
    case _ => false
  }

  ghost predicate NoneEnding(events: seq<Event>) {
    forall n :: 0 <= n < |events| ==> !Ending(events, n)
  }

  lemma NoneEndingPush(events: seq<Event>)
    requires events != []
    ensures NoneEnding(events) <==> NoneEnding(events[..|events| - 1]) && !Ending(events, |events| - 1)
  {
    var pre := events[..|events| - 1];
    forall n | 0 <= n < |pre| ensures Ending(pre, n) == Ending(events, n) {
      assert pre[..n] == events[..n];
    }
    assert forall n :: 0 <= n < |pre| ==> Ending(pre, n) == Ending(events, n);
  }

  /** An open session that has taken in everything sent and still holds what waits. */
  ghost predicate HoldsAll(s: State, events: seq<Event>) {
    s.open && s.accepted == Sent(events) && |s.outbox| == Waiting(events)
  }

  lemma ReadPush(events: seq<Event>, e: Event)
    ensures Sent(events + [e]) == Sent(events) + if e.Send? then [e.text] else []
    ensures Waiting(events + [e]) == match e
      case Send(_) => Waiting(events) + 1
      case WriteDone(ok) => if ok && Waiting(events) > 0 then Waiting(events) - 1 else Waiting(events)
      case _ => Waiting(events)
    ensures Ending(events + [e], |events|) <==> match e
      case Close => true
      case WriteDone(ok) => !ok && Waiting(events) > 0
      case Send(_) => Waiting(events) >= 4096
      case _ => false
  {
    assert (events + [e])[..|events|] == events;
  }

  /** What one event does to an open session, said of its outbox. */
  ghost predicate Advances(s: State, e: Event, t: State) {
    match e
    case Send(text) =>
      if |s.outbox| >= 4096 then !t.open && t.accepted == s.accepted
      else t.open && t.accepted == s.accepted + [text] && |t.outbox| == |s.outbox| + 1
    case WriteDone(ok) =>
      && t.open == (ok || s.outbox == []) && t.accepted == s.accepted
      && |t.outbox| == if ok && s.outbox != [] then |s.outbox| - 1 else |s.outbox|
    case Close => !t.open && t.accepted == s.accepted
    case _ => t.open && t.accepted == s.accepted && |t.outbox| == |s.outbox|
  }

  lemma StepAdvances(s: State, e: Event)
    requires s.open && OneWrite(s)
    ensures Advances(s, e, Step(s, e))
  {
  }

  lemma HoldsAllStep(s: State, t: State, events: seq<Event>, e: Event)
    requires HoldsAll(s, events) && Advances(s, e, t)
    ensures if Ending(events + [e], |events|) then !t.open && t.accepted == Sent(events)
      else HoldsAll(t, events + [e])
  {
    ReadPush(events, e);
  }

  lemma RunPush(events: seq<Event>)
    requires events != []
    ensures var n := |events| - 1;
      Run(OPENED, events) == Step(Run(OPENED, events[..n]), events[n])
  {
  }

  lemma {:induction false} OpenHoldsAll(events: seq<Event>)
    ensures Run(OPENED, events).open <==> NoneEnding(events)
    ensures NoneEnding(events) ==> HoldsAll(Run(OPENED, events), events)
  {
    if events != [] {
      var n := |events| - 1;
      OpenHoldsAll(events[..n]);
      NoneEndingPush(events);
      LastEvent(events, Run(OPENED, events[..n]), events[n]);
    }
  }

  lemma LastEvent(events: seq<Event>, s: State, e: Event)
    requires events != [] && s == Run(OPENED, events[..|events| - 1]) && e == events[|events| - 1]
    requires s.open ==> HoldsAll(s, events[..|events| - 1])
    ensures var t, pre := Run(OPENED, events), events[..|events| - 1];
      if !s.open then !t.open && t.accepted == s.accepted
      else if Ending(events, |events| - 1) then !t.open && t.accepted == Sent(pre)
      else HoldsAll(t, events)
  {
    RunPush(events);
    EveryRunKeeps(events[..|events| - 1]);
    if s.open { StepAdvances(s, e); } else { StaysClosed(s, e); }
    EventMeans(events, events[..|events| - 1], s, e, Run(OPENED, events));
  }

  lemma EventMeans(events: seq<Event>, pre: seq<Event>, s: State, e: Event, t: State)
    requires events != [] && pre == events[..|events| - 1] && e == events[|events| - 1]
    requires if s.open then HoldsAll(s, pre) && Advances(s, e, t) else !t.open && t.accepted == s.accepted
    ensures if !s.open then !t.open && t.accepted == s.accepted
      else if Ending(events, |events| - 1) then !t.open && t.accepted == Sent(pre)
      else HoldsAll(t, events)
  {
    assert pre + [e] == events;
    if s.open { HoldsAllStep(s, t, pre, e); }
  }

  /**
   * A session is open exactly when nothing in its run closed it; and then it
   * has taken in every text sent, in order, of which the first ones are
   * written and the rest wait.
   */
  lemma NothingLost(events: seq<Event>)
    ensures var t := Run(OPENED, events);
      && (t.open <==> NoneEnding(events))
      && (t.open ==> t.accepted == Sent(events) && t.completed + Texts(t.outbox) == Sent(events)
                     && |t.outbox| == Waiting(events))
  {
    OpenHoldsAll(events);
    EveryRunKeeps(events);
  }

  /** A closed session has taken in what was sent before the event that closed it. */
  lemma {:induction false} LostAfterEnd(events: seq<Event>, n: nat)
    requires n < |events| && NoneEnding(events[..n]) && Ending(events, n)
    ensures !Run(OPENED, events).open && Run(OPENED, events).accepted == Sent(events[..n])
  {
    var k := |events| - 1;
    if n == k {
      OpenHoldsAll(events[..k]);
      LastEvent(events, Run(OPENED, events[..k]), events[k]);
    } else {
      EndsEarlier(events, n);
      LostAfterEnd(events[..k], n);
      LastEvent(events, Run(OPENED, events[..k]), events[k]);
    }
  }

  lemma EndsEarlier(events: seq<Event>, n: nat)
    requires n < |events| - 1 && NoneEnding(events[..n]) && Ending(events, n)
    ensures var pre := events[..|events| - 1];
      pre[..n] == events[..n] && Ending(pre, n)
  {
    assert events[..|events| - 1][..n] == events[..n];
  }

  /** A send is refused exactly by a closed session and by one where 4096 messages wait, which it closes. */
  lemma SendMeans(s: State, text: string)
    requires Inv(s)
    ensures var t := Step(s, Send(text));
      if !s.open then t == s
      else if |s.outbox| == 4096 then !t.open && t.outbox == s.outbox
      else t.open && Texts(t.outbox) == Texts(s.outbox) + [text]
  {
  }

  // ---------- After the close ----------

  lemma StaysClosed(s: State, e: Event)
    requires !s.open
    ensures var t := Step(s, e);
      !t.open && |t.inFlight| <= |s.inFlight| && t.accepted == s.accepted && t.closes == s.closes
  {
  }

  /** Closing stops every tree; once closed, no run opens the session again, starts a write or takes a message. */
  lemma {:induction false} ClosedForGood(s: State, events: seq<Event>)
    requires Inv(s)
    ensures var t := Run(Closed(s), events);
      !t.open && |t.inFlight| <= |s.inFlight| && t.accepted == s.accepted && t.closes == 1
    ensures s.open ==> Closed(s).requests.running == map[]
  {
    ShutDownKeeps(s.requests);
    if events != [] {
      ClosedForGood(s, events[..|events| - 1]);
      StaysClosed(Run(Closed(s), events[..|events| - 1]), events[|events| - 1]);
    }
  }

  /**
   * A closed session with no tree installed has none running after an event
   * exactly when the event is not a subscription: one that was already read is
   * still served, and nothing but a cancellation or a replacement shuts its tree down.
   */
  lemma LateSubscriptionRuns(s: State, e: Event)
    requires Inv(s) && !s.open && s.requests.active == map[]
    ensures Step(s, e).requests.running == map[] <==> !e.Subscribe?
  {
    ShutDownKeeps(s.requests);
    assert s.requests.active.Values == {};
    assert s.requests.running - {} == s.requests.running;
    if e.Subscribe? {
      assert s.requests.nextTree in Step(s, e).requests.running;
    }
  }

  // ---------- The session object ----------

  class ClientSession {
    var open: bool
    var writing: bool
    var outbox: seq<Cell>
    var nextId: nat
    var requests: Requests
    ghost var inFlight: seq<nat>
    ghost var accepted: seq<string>
    ghost var completed: seq<string>
    ghost var closes: nat
    var registered: bool

    ghost function St(): State
      reads this
    {
      State(open, writing, outbox, inFlight, nextId, accepted, completed, requests, closes, registered)
    }

    constructor ()
      ensures St() == OPENED
    {
      open, writing, outbox, nextId, requests, registered := true, false, [], 0, NO_REQUESTS, true;
      inFlight, accepted, completed, closes := [], [], [], 0;
    }

    method SendText(text: string)
      requires Inv(St())
      modifies this
      ensures Inv(St()) && St() == Step(old(St()), Send(text))
      ensures open == (old(open) && old(|outbox|) != 4096)
      ensures Texts(outbox) == Texts(old(outbox)) + if open then [text] else []
    {
      SendMeans(St(), text);
      StepKeeps(St(), Send(text));
      if !open { return; }
      if |outbox| >= MAX_OUTBOX {
        CloseSession();
        return;
      }
      outbox, nextId, accepted := outbox + [Cell(nextId, text)], nextId + 1, accepted + [text];
      if !writing {
        writing := true;
        BeginWrite();
      }
    }

    method BeginWrite()
      modifies `writing, `outbox, `inFlight
      ensures St() == StartWrite(old(St()))
    {
      if !open {
        writing, outbox := false, [];
        return;
      }
      if outbox == [] {
        writing := false;
        return;
      }
      inFlight := inFlight + [outbox[0].id];
    }

    method OnWrite(ok: bool)
      requires Inv(St()) && inFlight != []
      modifies this
      ensures Inv(St()) && St() == Step(old(St()), WriteDone(ok))
    {
      StepKeeps(St(), WriteDone(ok));
      inFlight := inFlight[1..];
      if !ok {
        CloseSession();
        return;
      }
      if outbox != [] {
        completed := completed + [outbox[0].text];
        outbox := outbox[1..];
      }
      BeginWrite();
    }

    /** Idempotent; shuts the trees down and leaves the outbox to the write in flight. */
    method CloseSession()
      modifies `open, `requests, `closes
      ensures St() == Closed(old(St()))
    {
      if !open { return; }
      open := false;
      requests := ShutDown(requests);
      closes := closes + 1;
    }

    /** The closing handshake ended: leave the server's list of sessions. */
    method OnClosed()
      requires Inv(St()) && closes > 0
      modifies `registered
      ensures Inv(St()) && St() == Step(old(St()), CloseDone) && !registered
    {
      if registered {
        registered := false;
      }
    }

    /** The part of a subscription that installs its tree. */
    method Install(key: string) returns (ok: bool)
      requires Inv(St())
      modifies `requests
      ensures Inv(St()) && St() == Step(old(St()), Subscribe(key))
      ensures ok == (key in old(requests.active) || |old(requests.active)| < 256)
      ensures if ok then Replaces(old(requests), requests, key) else requests == old(requests)
    {
      if key in requests.active || |requests.active| < 256 { InstalledMeans(requests, key); }
      StepKeeps(St(), Subscribe(key));
      if key !in requests.active && |requests.active| >= MAX_SUBSCRIPTIONS { return false; }
      requests := Installed(requests, key);
      return true;
    }

    method Uninstall(key: string)
      requires Inv(St())
      modifies `requests
      ensures Inv(St()) && St() == Step(old(St()), Cancel(key)) && requests.active == old(requests.active) - {key}
      ensures key in old(requests.active) ==> old(requests.active[key]) !in requests.running
    {
      StepKeeps(St(), Cancel(key));
      requests := Cancelled(requests, key);
    }
  }
}
