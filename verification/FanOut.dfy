/**
 The goroutine fan-out shared by the regional deploy and delete functions: one
 worker per region, a WaitGroup, and an error channel with one slot per region.
 Any interleaving of the atomic steps below is a run. A send on a closed channel or
 a negative WaitGroup counter panics; a send on a full channel is not enabled.
 */
module FanOut {
  import opened Common

  datatype Phase = NotStarted | Running | Reported | Finished(failed: bool)

  /** The caller: looping over regions, between `wg.Add` and `go`, in `wg.Wait`,
      before `close`, in the range over the channel, and after `return`. */
  datatype Caller = Looping(next: nat) | Adding(next: nat) | Waiting | Closing | Draining | Returned(error: Option<nat>)

  /** `queue` holds the buffered errors, each named by the worker that sent it. */
  datatype State = State(caller: Caller, workers: seq<Phase>, counter: int, queue: seq<nat>,
                         closed: bool, panicked: bool)

  datatype Action =
    | AddOne | Go | LoopDone | WaitDone | Close | Receive | ReceiveEnd
    | Send(w: nat) | DoneAfterSend(w: nat) | DoneQuietly(w: nat)

  function Init(regions: nat): State {
    State(Looping(0), seq(regions, i => NotStarted), 0, [], false, false)
  }

  predicate Enabled(s: State, a: Action) {
    !s.panicked &&
    match a
    case AddOne => s.caller.Looping? && s.caller.next < |s.workers|
    case Go => s.caller.Adding? && s.caller.next < |s.workers|
    case LoopDone => s.caller == Looping(|s.workers|)
    case WaitDone => s.caller.Waiting? && s.counter == 0
    case Close => s.caller.Closing?
    case Receive => s.caller.Draining? && s.queue != []
    case ReceiveEnd => s.caller.Draining? && s.queue == [] && s.closed
    case Send(w) => w < |s.workers| && s.workers[w] == Running && (s.closed || |s.queue| < |s.workers|)
    case DoneAfterSend(w) => w < |s.workers| && s.workers[w] == Reported
    case DoneQuietly(w) => w < |s.workers| && s.workers[w] == Running
  }

  /** `wg.Done`, which panics below zero. */
  function Finish(s: State, w: nat, failed: bool): State
    requires w < |s.workers|
  {
    s.(workers := s.workers[w := Finished(failed)], counter := s.counter - 1, panicked := s.counter - 1 < 0)
  }

  function Apply(s: State, a: Action): State
    requires Enabled(s, a)
  {
    match a
    case AddOne => s.(counter := s.counter + 1, caller := Adding(s.caller.next))
    case Go => s.(workers := s.workers[s.caller.next := Running], caller := Looping(s.caller.next + 1))
    case LoopDone => s.(caller := Waiting)
    case WaitDone => s.(caller := Closing)
    case Close => s.(closed := true, caller := Draining, panicked := s.closed)
    case Receive => s.(queue := s.queue[1..], caller := Returned(Some(s.queue[0])))
    case ReceiveEnd => s.(caller := Returned(None))
    case Send(w) =>
      if s.closed then s.(panicked := true)
      else s.(queue := s.queue + [w], workers := s.workers[w := Reported])
    case DoneAfterSend(w) => Finish(s, w, true)
    case DoneQuietly(w) => Finish(s, w, false)
  }

  ghost predicate Run(states: seq<State>, actions: seq<Action>, regions: nat) {
    && |states| == |actions| + 1 && states[0] == Init(regions)
    && forall i :: 0 <= i < |actions| ==>
         Enabled(states[i], actions[i]) && states[i + 1] == Apply(states[i], actions[i])
  }

  // ----- counting

  predicate Live(p: Phase) {
    p == Running || p == Reported
  }

  /** Spawned but unfinished workers. */
  function LiveCount(ws: seq<Phase>): nat {
    if ws == [] then 0 else LiveCount(ws[..|ws| - 1]) + (if Live(ws[|ws| - 1]) then 1 else 0)
  }

  lemma {:induction false} LiveUpdate(ws: seq<Phase>, i: nat, p: Phase)
    requires i < |ws|
    ensures LiveCount(ws[i := p]) == LiveCount(ws) - (if Live(ws[i]) then 1 else 0) + (if Live(p) then 1 else 0)
  {
    var n := |ws| - 1;
    if i < n {
      assert ws[i := p][..n] == ws[..n][i := p];
      LiveUpdate(ws[..n], i, p);
    } else {
      assert ws[i := p][..n] == ws[..n];
    }
  }

  lemma {:induction false} LiveHas(ws: seq<Phase>, i: nat)
    requires i < |ws| && Live(ws[i])
    ensures LiveCount(ws) > 0
  {
    if i < |ws| - 1 {
      LiveHas(ws[..|ws| - 1], i);
    }
  }

  lemma {:induction false} LiveNone(ws: seq<Phase>)
    requires LiveCount(ws) > 0
    ensures exists i :: 0 <= i < |ws| && Live(ws[i])
  {
    var n := |ws| - 1;
    if !Live(ws[n]) {
      LiveNone(ws[..n]);
      var i :| 0 <= i < n && Live(ws[..n][i]);
      assert Live(ws[i]);
    }
  }

  predicate NoRepeats(q: seq<nat>) {
    forall i, j :: 0 <= i < j < |q| ==> q[i] != q[j]
  }

  function Below(n: nat): (b: set<nat>)
    ensures |b| == n && forall x: nat :: x in b <==> x < n
  {
    if n == 0 then {} else Below(n - 1) + {n - 1}
  }

  function Members(q: seq<nat>): (m: set<nat>)
    ensures forall x :: x in m <==> x in q
    ensures NoRepeats(q) ==> |m| == |q|
  {
    if q == [] then {}
    else
      assert NoRepeats(q) ==> q[|q| - 1] !in q[..|q| - 1];
      Members(q[..|q| - 1]) + {q[|q| - 1]}
  }

  /** Pigeonhole: distinct numbers below `n`, one of them missing, are fewer than `n`. */
  lemma Pigeonhole(q: seq<nat>, n: nat, missing: nat)
    requires NoRepeats(q) && missing < n && missing !in q && forall x :: x in q ==> x < n
    ensures |q| < n
  {
    SubsetSize(Members(q), Below(n) - {missing});
  }

  lemma {:induction false} SubsetSize(a: set<nat>, b: set<nat>)
    requires a <= b
    ensures |a| <= |b|
    decreases a
  {
    if x :| x in a {
      SubsetSize(a - {x}, b - {x});
    }
  }

  // ----- the invariant

  function Spawned(c: Caller, regions: nat): nat {
    if c.Looping? || c.Adding? then c.next else regions
  }

  predicate HasFailed(p: Phase) {
    p == Reported || p == Finished(true)
  }

  predicate AllFinished(ws: seq<Phase>) {
    forall w :: 0 <= w < |ws| ==> ws[w].Finished?
  }

  ghost predicate Inv(s: State) {
    && !s.panicked
    && (s.caller.Looping? || s.caller.Adding? ==> s.caller.next <= |s.workers|)
    && (s.caller.Adding? ==> s.caller.next < |s.workers|)
    && (forall w :: 0 <= w < |s.workers| ==> (s.workers[w] == NotStarted <==> w >= Spawned(s.caller, |s.workers|)))
    && s.counter == LiveCount(s.workers) + (if s.caller.Adding? then 1 else 0)
    && NoRepeats(s.queue)
    && (forall w :: w in s.queue ==> w < |s.workers| && HasFailed(s.workers[w]))
    && (!s.caller.Returned? ==> forall w :: 0 <= w < |s.workers| && HasFailed(s.workers[w]) ==> w in s.queue)
    && (s.closed <==> s.caller.Draining? || s.caller.Returned?)
    && (s.caller.Closing? || s.closed ==> AllFinished(s.workers))
    && (s.caller.Returned? ==> Answer(s.caller.error, s.workers))
  }

  /** The error names a failed worker, and there is none only if no worker failed. */
  predicate Answer(error: Option<nat>, ws: seq<Phase>) {
    match error
    case None => forall w :: 0 <= w < |ws| ==> ws[w] != Finished(true)
    case Some(w) => w < |ws| && ws[w] == Finished(true)
  }

  lemma {:induction false} InitCount(regions: nat)
    ensures LiveCount(seq(regions, i => NotStarted)) == 0
  {
    if regions > 0 {
      InitCount(regions - 1);
      assert seq(regions, i => NotStarted)[..regions - 1] == seq(regions - 1, i => NotStarted);
    }
  }

  lemma InitKeepsInv(regions: nat)
    ensures Inv(Init(regions))
  {
    InitCount(regions);
  }

  lemma SpawnKeepsInv(s: State, a: Action)
    requires Inv(s) && Enabled(s, a) && (a.AddOne? || a.Go? || a.LoopDone?)
    ensures Inv(Apply(s, a))
  {
    hide LiveCount;
    if a.Go? {
      LiveUpdate(s.workers, s.caller.next, Running);
    }
  }

  lemma WaitKeepsInv(s: State, a: Action)
    requires Inv(s) && Enabled(s, a) && (a.WaitDone? || a.Close? || a.Receive? || a.ReceiveEnd?)
    ensures Inv(Apply(s, a))
  {
    hide LiveCount;
    if a.WaitDone? {
      forall w | 0 <= w < |s.workers| ensures s.workers[w].Finished? {
        if Live(s.workers[w]) {
          LiveHas(s.workers, w);
        }
      }
    }
    if a.Receive? {
      assert s.queue[0] in s.queue;
      assert HasFailed(s.workers[s.queue[0]]) && s.workers[s.queue[0]].Finished?;
      assert forall i :: 0 <= i < |s.queue[1..]| ==> s.queue[1..][i] == s.queue[i + 1];
      assert forall x :: x in s.queue[1..] ==> x in s.queue;
    }
  }

  lemma SendKeepsInv(s: State, w: nat)
    requires Inv(s) && Enabled(s, Send(w))
    ensures Inv(Apply(s, Send(w)))
  {
    hide LiveCount;
    LiveUpdate(s.workers, w, Reported);
  }

  lemma DoneKeepsInv(s: State, w: nat, failed: bool)
    requires Inv(s) && Enabled(s, if failed then DoneAfterSend(w) else DoneQuietly(w))
    ensures Inv(Finish(s, w, failed))
  {
    hide LiveCount;
    LiveUpdate(s.workers, w, Finished(failed));
    LiveHas(s.workers, w);
  }

  lemma StepKeepsInv(s: State, a: Action)
    requires Inv(s) && Enabled(s, a)
    ensures Inv(Apply(s, a))
  {
    match a
    case Send(w) => SendKeepsInv(s, w);
    case DoneAfterSend(w) => DoneKeepsInv(s, w, true);
    case DoneQuietly(w) => DoneKeepsInv(s, w, false);
    case AddOne => SpawnKeepsInv(s, a);
    case Go => SpawnKeepsInv(s, a);
    case LoopDone => SpawnKeepsInv(s, a);
    case WaitDone => WaitKeepsInv(s, a);
    case Close => WaitKeepsInv(s, a);
    case Receive => WaitKeepsInv(s, a);
    case ReceiveEnd => WaitKeepsInv(s, a);
  }

  lemma {:induction false} RunKeepsInv(states: seq<State>, actions: seq<Action>, regions: nat, n: nat)
    requires Run(states, actions, regions) && n < |states|
    ensures Inv(states[n]) && |states[n].workers| == regions
  {
    hide Inv, LiveCount;
    if n == 0 {
      InitKeepsInv(regions);
    } else {
      RunKeepsInv(states, actions, regions, n - 1);
      StepKeepsInv(states[n - 1], actions[n - 1]);
    }
  }

  // ----- the protocol's promises

  /** In every reachable state a running worker could send at once: the channel is
      open and has room. Nothing panics and the WaitGroup counter is exact. */
  lemma SendsNeverBlock(states: seq<State>, actions: seq<Action>, regions: nat, n: nat)
    requires Run(states, actions, regions) && n < |states|
    ensures var s := states[n];
            && !s.panicked && |s.workers| == regions
            && s.counter == LiveCount(s.workers) + (if s.caller.Adding? then 1 else 0)
            && (forall w :: 0 <= w < regions && s.workers[w] == Running ==>
                 && !s.closed && |s.queue| < regions && Enabled(s, Send(w)) && Enabled(s, DoneQuietly(w))
                 && !Apply(s, Send(w)).panicked && !Apply(s, DoneQuietly(w)).panicked)
            && (forall w :: 0 <= w < regions && s.workers[w] == Reported ==>
                 Enabled(s, DoneAfterSend(w)) && !Apply(s, DoneAfterSend(w)).panicked)
  {
    RunKeepsInv(states, actions, regions, n);
    var s := states[n];
    forall w | 0 <= w < regions && s.workers[w] == Running
      ensures !s.closed && |s.queue| < regions && !Apply(s, DoneQuietly(w)).panicked
    {
      Pigeonhole(s.queue, regions, w);
      LiveHas(s.workers, w);
    }
    forall w | 0 <= w < regions && s.workers[w] == Reported ensures !Apply(s, DoneAfterSend(w)).panicked {
      LiveHas(s.workers, w);
    }
  }

  /** No deadlock: some step is enabled until the caller has returned. */
  lemma CallerProceeds(states: seq<State>, actions: seq<Action>, regions: nat, n: nat)
    requires Run(states, actions, regions) && n < |states| && !states[n].caller.Returned?
    ensures exists a :: Enabled(states[n], a)
  {
    RunKeepsInv(states, actions, regions, n);
    var s := states[n];
    match s.caller {
      case Looping(next) => assert Enabled(s, if next < |s.workers| then AddOne else LoopDone);
      case Adding(_) => assert Enabled(s, Go);
      case Waiting =>
        if s.counter == 0 {
          assert Enabled(s, WaitDone);
        } else {
          LiveNone(s.workers);
          var w: nat :| w < |s.workers| && Live(s.workers[w]);
          assert Enabled(s, if s.workers[w] == Running then DoneQuietly(w) else DoneAfterSend(w));
        }
      case Closing => assert Enabled(s, Close);
      case Draining => assert Enabled(s, if s.queue != [] then Receive else ReceiveEnd);
    }
  }

  function CallerWork(c: Caller, regions: nat): nat {
    match c
    case Looping(next) => 4 + 2 * (if next <= regions then regions - next else 0)
    case Adding(next) => 3 + 2 * (if next <= regions then regions - next else 0)
    case Waiting => 3
    case Closing => 2
    case Draining => 1
    case Returned(_) => 0
  }

  function PhaseWork(p: Phase): nat {
    match p
    case NotStarted => 3
    case Running => 2
    case Reported => 1
    case Finished(_) => 0
  }

  function WorkersWork(ws: seq<Phase>): nat {
    if ws == [] then 0 else WorkersWork(ws[..|ws| - 1]) + PhaseWork(ws[|ws| - 1])
  }

  function Work(s: State): nat {
    CallerWork(s.caller, |s.workers|) + WorkersWork(s.workers)
  }

  lemma {:induction false} WorkUpdate(ws: seq<Phase>, i: nat, p: Phase)
    requires i < |ws|
    ensures WorkersWork(ws[i := p]) == WorkersWork(ws) - PhaseWork(ws[i]) + PhaseWork(p)
  {
    var n := |ws| - 1;
    if i < n {
      assert ws[i := p][..n] == ws[..n][i := p];
      WorkUpdate(ws[..n], i, p);
    } else {
      assert ws[i := p][..n] == ws[..n];
    }
  }

  lemma StepDoesWork(s: State, a: Action)
    requires Inv(s) && Enabled(s, a)
    ensures Work(Apply(s, a)) < Work(s)
  {
    hide WorkersWork, LiveCount;
    match a
    case Go => WorkUpdate(s.workers, s.caller.next, Running);
    case Send(w) => WorkUpdate(s.workers, w, Reported);
    case DoneAfterSend(w) => WorkUpdate(s.workers, w, Finished(true));
    case DoneQuietly(w) => WorkUpdate(s.workers, w, Finished(false));
    case _ =>
  }

  lemma {:induction false} InitWork(regions: nat)
    ensures WorkersWork(seq(regions, i => NotStarted)) == 3 * regions
  {
    if regions > 0 {
      InitWork(regions - 1);
      assert seq(regions, i => NotStarted)[..regions - 1] == seq(regions - 1, i => NotStarted);
    }
  }

  /** Every run is finite: at most 5 * regions + 4 steps, whatever the interleaving. */
  lemma {:induction false} RunsTerminate(states: seq<State>, actions: seq<Action>, regions: nat, n: nat)
    requires Run(states, actions, regions) && n < |states|
    ensures n + Work(states[n]) <= 5 * regions + 4
  {
    if n == 0 {
      InitWork(regions);
    } else {
      RunsTerminate(states, actions, regions, n - 1);
      RunKeepsInv(states, actions, regions, n - 1);
      StepDoesWork(states[n - 1], actions[n - 1]);
    }
  }

  /** When the caller returns, every worker has finished, and the result is an error if
      and only if some worker failed; the error is a failed worker's. */
  lemma ErrorIffSomeWorkerFailed(states: seq<State>, actions: seq<Action>, regions: nat, n: nat)
    requires Run(states, actions, regions) && n < |states| && states[n].caller.Returned?
    ensures |states[n].workers| == regions && AllFinished(states[n].workers)
    ensures states[n].caller.error.Some? <==> exists w :: 0 <= w < regions && states[n].workers[w] == Finished(true)
    ensures states[n].caller.error.Some? ==>
              var w := states[n].caller.error.value;
              w < regions && states[n].workers[w] == Finished(true)
  {
    RunKeepsInv(states, actions, regions, n);
  }
}
