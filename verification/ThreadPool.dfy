/**
 * The thread pool as a transition system. Each critical section of the pool's
 * mutex is one step; running a task and the decrement of `inFlight_` happen
 * outside it and are steps of their own. A run is any interleaving of posters,
 * workers, drainers and closers; a step that is not enabled does nothing.
 * Tasks are identified by the order in which they were accepted.
 */
module ThreadPool {

  datatype Worker =
    | Waiting
    | Running(task: nat)   // task taken and counted, function executing
    | Ran(task: nat)       // function returned or threw, count not yet lowered
    | Exited

  /** A thread inside `shutdown` or the destructor. */
  datatype Closer =
    | Draining
    | Stopping             // drain done (the destructor starts here), flag not yet set
    | Joining(joined: nat)
    | Returned

  datatype Pool = Pool(
    queue: seq<nat>, inFlight: int, stopping: bool, workers: seq<Worker>, closers: seq<Closer>,
    accepted: nat, started: seq<nat>, finished: set<nat>)

  datatype Event =
    | Post
    | TakeTask(w: nat) | FinishTask(w: nat) | Decrement(w: nat) | Exit(w: nat)
    | CallShutdown | CallDestructor
    | DrainDone(c: nat) | SetStopping(c: nat) | Join(c: nat)

  /** A request for 0 threads gets 1. */
  function Init(nThreads: nat): Pool {
    var n := if nThreads == 0 then 1 else nThreads;
    Pool([], 0, false, seq(n, _ => Waiting), [], 0, [], {})
  }

  /** The wait condition of `drain`. */
  predicate Idle(p: Pool) {
    p.queue == [] && p.inFlight == 0
  }

  function Step(p: Pool, e: Event): Pool {
    match e
    case Post =>
      if p.stopping then p else p.(queue := p.queue + [p.accepted], accepted := p.accepted + 1)
    case TakeTask(w) =>
      if w < |p.workers| && p.workers[w].Waiting? && p.queue != [] then
        p.(queue := p.queue[1..], workers := p.workers[w := Running(p.queue[0])],
           inFlight := p.inFlight + 1, started := p.started + [p.queue[0]])
      else p
    case FinishTask(w) =>
      if w < |p.workers| && p.workers[w].Running? then
        p.(workers := p.workers[w := Ran(p.workers[w].task)], finished := p.finished + {p.workers[w].task})
      else p
    case Decrement(w) =>
      if w < |p.workers| && p.workers[w].Ran? then
        p.(workers := p.workers[w := Waiting], inFlight := p.inFlight - 1)
      else p
    case Exit(w) =>
      if w < |p.workers| && p.workers[w].Waiting? && p.stopping && p.queue == [] then
        p.(workers := p.workers[w := Exited])
      else p
    case CallShutdown => p.(closers := p.closers + [Draining])
    case CallDestructor => p.(closers := p.closers + [Stopping])
    case DrainDone(c) =>
      if c < |p.closers| && p.closers[c].Draining? && Idle(p) then p.(closers := p.closers[c := Stopping]) else p
    case SetStopping(c) =>
      if c < |p.closers| && p.closers[c].Stopping? then p.(stopping := true, closers := p.closers[c := Joining(0)])
      else p
    case Join(c) =>
      if c < |p.closers| && p.closers[c].Joining? then
        var j := p.closers[c].joined;
        if j >= |p.workers| then p.(closers := p.closers[c := Returned])
        else if p.workers[j].Exited? then p.(closers := p.closers[c := Joining(j + 1)])
        else p
      else p
  }

  // ---------- The invariant ----------

  predicate IsBusy(w: Worker) {
    w.Running? || w.Ran?
  }

  function Busy(ws: seq<Worker>): nat {
    if ws == [] then 0 else (if IsBusy(ws[0]) then 1 else 0) + Busy(ws[1..])
  }

  /** Tasks start in the order accepted, each once. */
  ghost predicate Ordered(p: Pool) {
    && p.accepted == |p.started| + |p.queue|
    && (forall i :: 0 <= i < |p.started| ==> p.started[i] == i)
    && (forall i :: 0 <= i < |p.queue| ==> p.queue[i] == |p.started| + i)
  }

  /** `t` is executing on worker `w`. */
  predicate Executes(p: Pool, w: int, t: int) {
    0 <= w < |p.workers| && p.workers[w].Running? && p.workers[w].task == t
  }

  /** A started task is either executing on exactly one worker or finished. */
  ghost predicate Split(p: Pool) {
    && (forall w, t :: Executes(p, w, t) ==> t < |p.started| && t !in p.finished)
    && (forall v, w, t :: Executes(p, v, t) && Executes(p, w, t) ==> v == w)
    && (forall t :: t in p.finished ==> t < |p.started|)
    && (forall t {:trigger t in p.finished} ::
          0 <= t < |p.started| && t !in p.finished ==> exists w :: Executes(p, w, t))
  }

  predicate AllExited(p: Pool, n: nat) {
    forall w :: 0 <= w < n && w < |p.workers| ==> p.workers[w].Exited?
  }

  /** Nobody leaves before the flag is set and the queue is empty; closers have seen what they joined. */
  ghost predicate Closing(p: Pool) {
    && |p.workers| > 0
    && ((exists w :: 0 <= w < |p.workers| && p.workers[w].Exited?) ==> p.stopping && p.queue == [])
    && (forall c :: 0 <= c < |p.closers| && p.closers[c].Joining? ==> p.stopping && AllExited(p, p.closers[c].joined))
    && (forall c :: 0 <= c < |p.closers| && p.closers[c].Returned? ==> AllExited(p, |p.workers|))
  }

  ghost predicate Inv(p: Pool) {
    Ordered(p) && Split(p) && Closing(p) && p.inFlight == Busy(p.workers)
  }

  // ---------- Preservation ----------

  lemma {:induction false} BusyUpdate(ws: seq<Worker>, i: nat, w: Worker)
    requires i < |ws|
    ensures Busy(ws[i := w]) == Busy(ws) - (if IsBusy(ws[i]) then 1 else 0) + (if IsBusy(w) then 1 else 0)
  {
    if i == 0 {
      assert ws[0 := w][1..] == ws[1..];
    } else {
      assert ws[i := w][1..] == ws[1..][i - 1 := w];
      BusyUpdate(ws[1..], i - 1, w);
    }
  }

  lemma {:induction false} NotBusy(ws: seq<Worker>, i: nat)
    requires i < |ws| && Busy(ws) == 0
    ensures !IsBusy(ws[i])
  {
    if i > 0 { NotBusy(ws[1..], i - 1); }
  }

  lemma {:induction false} NoneBusy(ws: seq<Worker>)
    requires forall i :: 0 <= i < |ws| ==> ws[i].Waiting?
    ensures Busy(ws) == 0
  {
    if ws != [] { NoneBusy(ws[1..]); }
  }

  lemma TakeStep(p: Pool, e: Event)
    requires Inv(p) && e.TakeTask? && Step(p, e) != p
    ensures Inv(Step(p, e))
  {
    var r := Step(p, e);
    BusyUpdate(p.workers, e.w, r.workers[e.w]);
    assert Executes(r, e.w, |p.started|);
    assert forall w, t :: Executes(r, w, t) <==> Executes(p, w, t) || (w == e.w && t == |p.started|);
  }

  lemma FinishStep(p: Pool, e: Event)
    requires Inv(p) && e.FinishTask? && Step(p, e) != p
    ensures Inv(Step(p, e))
  {
    var r := Step(p, e);
    BusyUpdate(p.workers, e.w, r.workers[e.w]);
    assert Executes(p, e.w, p.workers[e.w].task);
    assert forall w, t :: Executes(r, w, t) <==> Executes(p, w, t) && w != e.w;
  }

  lemma LeaveStep(p: Pool, e: Event)
    requires Inv(p) && (e.Decrement? || e.Exit?) && Step(p, e) != p
    ensures Inv(Step(p, e))
  {
    var r := Step(p, e);
    BusyUpdate(p.workers, e.w, r.workers[e.w]);
    assert forall w, t :: Executes(r, w, t) <==> Executes(p, w, t);
  }

  lemma PostStep(p: Pool)
    requires Inv(p)
    ensures Inv(Step(p, Post))
  {
    var r := Step(p, Post);
    assert forall w, t :: Executes(r, w, t) <==> Executes(p, w, t);
  }

  /** Shutting down touches neither queue nor workers. */
  lemma CloserStep(p: Pool, e: Event)
    requires Inv(p) && (e.CallShutdown? || e.CallDestructor? || e.DrainDone? || e.SetStopping? || e.Join?)
    ensures Inv(Step(p, e))
  {
    var r := Step(p, e);
    assert forall w, t :: Executes(r, w, t) <==> Executes(p, w, t);
  }

  function Run(p: Pool, events: seq<Event>): Pool {
    if events == [] then p else Step(Run(p, events[..|events| - 1]), events[|events| - 1])
  }

  lemma {:induction false} EveryInterleavingKeeps(nThreads: nat, events: seq<Event>)
    ensures Inv(Run(Init(nThreads), events))
  {
    if events == [] {
      NoneBusy(Init(nThreads).workers);
    } else {
      var p, e := Run(Init(nThreads), events[..|events| - 1]), events[|events| - 1];
      EveryInterleavingKeeps(nThreads, events[..|events| - 1]);
      if Step(p, e) == p {
      } else if e.TakeTask? {
        TakeStep(p, e);
      } else if e.FinishTask? {
        FinishStep(p, e);
      } else if e.Decrement? || e.Exit? {
        LeaveStep(p, e);
      } else if e.Post? {
        PostStep(p);
      } else {
        CloserStep(p, e);
      }
    }
  }

  // ---------- What callers may rely on ----------

  ghost predicate AllFinished(p: Pool) {
    forall t :: 0 <= t < p.accepted ==> t in p.finished
  }

  /** A drain can return only at a moment when every accepted task has finished. */
  lemma DrainMeansFinished(nThreads: nat, events: seq<Event>)
    ensures var p := Run(Init(nThreads), events);
      Idle(p) ==> AllFinished(p)
  {
    EveryInterleavingKeeps(nThreads, events);
    var p := Run(Init(nThreads), events);
    if Idle(p) { IdleMeansFinished(p); }
  }

  /** Once a shutdown or destructor has returned, every task ever accepted has run. */
  lemma ShutdownMeansFinished(nThreads: nat, events: seq<Event>)
    ensures var p := Run(Init(nThreads), events);
      (exists c :: 0 <= c < |p.closers| && p.closers[c].Returned?) ==> AllFinished(p)
  {
    EveryInterleavingKeeps(nThreads, events);
    var p := Run(Init(nThreads), events);
    if c :| 0 <= c < |p.closers| && p.closers[c].Returned? { ReturnedMeansFinished(p, c); }
  }

  lemma ReturnedMeansFinished(p: Pool, c: nat)
    requires Inv(p) && c < |p.closers| && p.closers[c].Returned?
    ensures AllFinished(p)
  {
    assert p.workers[0].Exited? && p.queue == [];
    forall t | 0 <= t < p.accepted ensures t in p.finished {
      assert forall w :: !Executes(p, w, t);
    }
  }

  /** Accepted tasks are the started ones followed by the queued ones, in the order accepted. */
  lemma StartsAreFifo(nThreads: nat, events: seq<Event>)
    ensures var p := Run(Init(nThreads), events);
      p.started + p.queue == seq(p.accepted, i => i)
  {
    EveryInterleavingKeeps(nThreads, events);
  }

  // ---------- What is accepted ----------

  /** The posts in a run. */
  function Posts(events: seq<Event>): nat {
    if events == [] then 0 else Posts(events[..|events| - 1]) + if events[|events| - 1].Post? then 1 else 0
  }

  /** Until stop is set every post is accepted. */
  lemma {:induction false} PostsAccepted(nThreads: nat, events: seq<Event>)
    ensures var p := Run(Init(nThreads), events);
      !p.stopping ==> p.accepted == Posts(events)
  {
    if events != [] { PostsAccepted(nThreads, events[..|events| - 1]); }
  }

  /** From then on none is. */
  lemma {:induction false} StopFreezes(p: Pool, events: seq<Event>)
    requires p.stopping
    ensures Run(p, events).stopping && Run(p, events).accepted == p.accepted
  {
    if events != [] { StopFreezes(p, events[..|events| - 1]); }
  }

  /** There are as many workers as asked for, and one where none was. */
  lemma {:induction false} WorkersStay(nThreads: nat, events: seq<Event>)
    ensures |Run(Init(nThreads), events).workers| == if nThreads == 0 then 1 else nThreads
  {
    if events != [] { WorkersStay(nThreads, events[..|events| - 1]); }
  }

  // ---------- The pool never gets stuck ----------

  function Stage(w: Worker): nat {
    match w case Running(_) => 2 case Ran(_) => 1 case _ => 0
  }

  function Stages(ws: seq<Worker>): nat {
    if ws == [] then 0 else Stage(ws[0]) + Stages(ws[1..])
  }

  /** The steps the accepted tasks still need. */
  function Work(p: Pool): nat {
    3 * |p.queue| + Stages(p.workers)
  }

  lemma {:induction false} StagesUpdate(ws: seq<Worker>, i: nat, w: Worker)
    requires i < |ws|
    ensures Stages(ws[i := w]) + Stage(ws[i]) == Stages(ws) + Stage(w)
  {
    if i == 0 {
      assert ws[0 := w][1..] == ws[1..];
    } else {
      assert ws[i := w][1..] == ws[1..][i - 1 := w];
      StagesUpdate(ws[1..], i - 1, w);
    }
  }

  lemma {:induction false} FindBusy(ws: seq<Worker>) returns (i: nat)
    requires Busy(ws) > 0
    ensures i < |ws| && IsBusy(ws[i])
  {
    if IsBusy(ws[0]) { return 0; }
    var j := FindBusy(ws[1..]);
    i := j + 1;
  }

  lemma StepKeeps(p: Pool, e: Event)
    requires Inv(p)
    ensures Inv(Step(p, e))
  {
    if Step(p, e) != p {
      if e.TakeTask? {
        TakeStep(p, e);
      } else if e.FinishTask? {
        FinishStep(p, e);
      } else if e.Decrement? || e.Exit? {
        LeaveStep(p, e);
      } else if e.Post? {
        PostStep(p);
      } else {
        CloserStep(p, e);
      }
    }
  }

  /** While there is work, some worker can do a step of it. */
  lemma WorkCanGoOn(p: Pool) returns (e: Event)
    requires Inv(p) && !Idle(p)
    ensures var r := Step(p, e);
      Inv(r) && Work(r) < Work(p) && r.accepted == p.accepted && r.closers == p.closers && r.stopping == p.stopping
  {
    if p.inFlight > 0 {
      var w := FindBusy(p.workers);
      e := if p.workers[w].Running? then FinishTask(w) else Decrement(w);
      StagesUpdate(p.workers, w, Step(p, e).workers[w]);
    } else {
      NotBusy(p.workers, 0);
      e := TakeTask(0);
      StagesUpdate(p.workers, 0, Step(p, e).workers[0]);
    }
    StepKeeps(p, e);
  }

  lemma RunLast(p: Pool, events: seq<Event>, e: Event)
    ensures Run(p, events + [e]) == Step(Run(p, events), e)
  {
    assert (events + [e])[..|events|] == events;
  }

  lemma {:induction false} RunFirst(p: Pool, e: Event, rest: seq<Event>)
    ensures Run(p, [e] + rest) == Run(Step(p, e), rest)
  {
    if rest == [] {
      RunLast(p, [], e);
      assert [e] + rest == [] + [e];
    } else {
      var pre, x := rest[..|rest| - 1], rest[|rest| - 1];
      RunFirst(p, e, pre);
      RunLast(p, [e] + pre, x);
      RunLast(Step(p, e), pre, x);
      assert [e] + rest == [e] + pre + [x] && rest == pre + [x];
    }
  }

  /** From every reachable state the workers alone can finish everything accepted, which lets every drain return. */
  lemma {:induction false} CanDrain(p: Pool) returns (events: seq<Event>)
    requires Inv(p)
    ensures var r := Run(p, events);
      Inv(r) && Idle(r) && AllFinished(r) && r.accepted == p.accepted && r.closers == p.closers
    decreases Work(p)
  {
    if Idle(p) {
      events := [];
      IdleMeansFinished(p);
    } else {
      var e := WorkCanGoOn(p);
      var rest := CanDrain(Step(p, e));
      RunFirst(p, e, rest);
      events := [e] + rest;
    }
  }

  lemma IdleMeansFinished(p: Pool)
    requires Inv(p) && Idle(p)
    ensures AllFinished(p)
  {
    forall t | 0 <= t < p.accepted ensures t in p.finished {
      forall w | 0 <= w < |p.workers| ensures !Executes(p, w, t) { NotBusy(p.workers, w); }
    }
  }

  function Phase(c: Closer): nat {
    match c case Draining => 3 case Stopping => 2 case Joining(_) => 1 case Returned => 0
  }

  function Staying(ws: seq<Worker>): nat {
    if ws == [] then 0 else (if ws[0].Exited? then 0 else 1) + Staying(ws[1..])
  }

  lemma {:induction false} StayingUpdate(ws: seq<Worker>, i: nat)
    requires i < |ws| && !ws[i].Exited?
    ensures Staying(ws[i := Exited]) == Staying(ws) - 1 && Staying(ws) > 0
  {
    if i == 0 {
      assert ws[0 := Exited][1..] == ws[1..];
    } else {
      assert ws[i := Exited][1..] == ws[1..][i - 1 := Exited];
      StayingUpdate(ws[1..], i - 1);
    }
  }

  function JoinsLeft(p: Pool, c: Closer): nat {
    if c.Joining? && c.joined <= |p.workers| then |p.workers| - c.joined else 0
  }

  /** What a closer can do once nothing is left to run. */
  lemma CloserCanGoOn(p: Pool, c: nat) returns (e: Event)
    requires Inv(p) && Idle(p) && c < |p.closers| && !p.closers[c].Returned?
    ensures var r := Step(p, e);
      && Inv(r) && c < |r.closers| && Work(r) == Work(p) && r.accepted == p.accepted
      && (Phase(r.closers[c]) < Phase(p.closers[c])
          || (Phase(r.closers[c]) == Phase(p.closers[c])
              && (Staying(r.workers) < Staying(p.workers)
                  || (r.workers == p.workers && JoinsLeft(r, r.closers[c]) < JoinsLeft(p, p.closers[c])))))
  {
    var cl := p.closers[c];
    if cl.Draining? {
      e := DrainDone(c);
    } else if cl.Stopping? {
      e := SetStopping(c);
    } else if cl.joined < |p.workers| && !p.workers[cl.joined].Exited? {
      NotBusy(p.workers, cl.joined);
      e := Exit(cl.joined);
      StayingUpdate(p.workers, cl.joined);
      StagesUpdate(p.workers, cl.joined, Exited);
    } else {
      e := Join(c);
    }
    StepKeeps(p, e);
  }

  /** And every shutdown under way can return, with everything accepted finished. */
  lemma {:induction false} CanReturn(p: Pool, c: nat) returns (events: seq<Event>)
    requires Inv(p) && c < |p.closers|
    ensures var r := Run(p, events);
      c < |r.closers| && r.closers[c].Returned? && r.accepted == p.accepted && AllFinished(r)
    decreases Work(p), Phase(p.closers[c]), Staying(p.workers), JoinsLeft(p, p.closers[c])
  {
    if p.closers[c].Returned? {
      ReturnedMeansFinished(p, c);
      return [];
    }
    var e;
    if Idle(p) { e := CloserCanGoOn(p, c); } else { e := WorkCanGoOn(p); }
    var rest := CanReturn(Step(p, e), c);
    RunFirst(p, e, rest);
    events := [e] + rest;
  }
}
