/** The worker that retries selected-to-none transitions (node_chainsync_recycler.go).

    An event whose handler cannot take the lifecycle lock is left pending, newest only, and a
    one-slot wake channel tells the worker. Threads interleave at every mutex section, channel
    operation, lock attempt and release; each is one step. */
module SelectedNoneWorker {
  import opened Wrappers

  /** A connection, by number; an event names the connection that was active before it. */
  type Conn = nat

  /** Whoever handles an event or a switch under the lock asks the selector for its best peer,
      acts on the answer if it should, and releases the lock. The selector is not under the lock. */
  datatype Phase = Rechecking | Acting | Releasing

  /** Where the worker stands: blocked on the wake channel, at the top of the drain loop, about
      to try the lock, sleeping before a retry, holding the lock, handling what it took, or gone. */
  datatype Worker = Waiting | Looking | Trying | Sleeping | Holding | Handling(event: Conn, phase: Phase) | Stopped

  /** Who holds the lifecycle lock: nobody, a restore or truncate, an event handler, a switch
      handler, or the worker. */
  datatype Holder = Nobody | Lifecycle | AHandler(phase: Phase) | Switcher(conn: Conn, phase: Phase) | TheWorker

  /** `deferring` counts handlers between storing an event and sending the wake. `deferred`
      lists the events stored so far and `covered` says how many of them the newest drain
      found stored: both are history and no step looks at them. */
  datatype State = State(
    pending: Option<Conn>,
    wake: bool,
    deferring: nat,
    worker: Worker,
    interval: nat,
    holder: Holder,
    bestPeer: Option<Conn>,
    active: Option<Conn>,
    deferred: seq<Conn>,
    covered: nat)

  datatype Step =
    | Event(prev: Conn)
    | HandlerStep
    | SendWake
    | Wake
    | Look
    | Try
    | Timer
    | TakePending
    | WorkerStep
    | Cancel
    | LifecycleLock
    | LifecycleUnlock
    | SelectPeer(peer: Option<Conn>)
    | Switch(conn: Conn)
    | SwitchStep(available: bool)

  /** In milliseconds. */
  const INITIAL_RETRY: nat := 10
  const MAX_RETRY: nat := 1000

  /** `nextChainSelectedNoneRetryInterval`. */
  function NextRetry(current: nat, lockAcquired: bool): nat {
    if lockAcquired then INITIAL_RETRY
    else if current >= MAX_RETRY / 2 then MAX_RETRY
    else 2 * current
  }

  /** `handleChainSelectedNoneEventLocked`: an event overtaken by a new selection changes nothing;
      otherwise whatever connection is active is cleared. */
  function NextPhase(s: State, phase: Phase): Phase {
    if phase == Rechecking && s.bestPeer.None? then Acting else Releasing
  }

  function Init(): State {
    State(None, false, 0, Waiting, INITIAL_RETRY, Nobody, None, None, [], 0)
  }

  predicate Enabled(s: State, step: Step) {
    match step
    case Event(_) => true
    case HandlerStep => s.holder.AHandler?
    case SendWake => s.deferring > 0
    case Wake => s.worker == Waiting && s.wake
    case Look => s.worker == Looking
    case Try => s.worker == Trying
    case Timer => s.worker == Sleeping
    case TakePending => s.worker == Holding
    case WorkerStep => s.worker.Handling?
    case Cancel => s.worker in {Waiting, Sleeping}
    case LifecycleLock => s.holder == Nobody
    case LifecycleUnlock => s.holder == Lifecycle
    case SelectPeer(_) => true
    case Switch(_) => true
    case SwitchStep(_) => s.holder.Switcher?
  }

  function Apply(s: State, step: Step): State
    requires Enabled(s, step)
  {
    match step
    case Event(prev) =>
      if s.holder == Nobody then s.(holder := AHandler(Rechecking))
      else s.(pending := Some(prev), deferring := s.deferring + 1, deferred := s.deferred + [prev])
    case HandlerStep =>
      var phase := s.holder.phase;
      s.(active := if phase == Acting then None else s.active,
         holder := if phase == Releasing then Nobody else AHandler(NextPhase(s, phase)))
    case SendWake => s.(wake := true, deferring := s.deferring - 1)
    case Wake => s.(wake := false, worker := Looking, interval := INITIAL_RETRY)
    case Look => s.(worker := if s.pending.Some? then Trying else Waiting)
    case Try =>
      if s.holder == Nobody then s.(holder := TheWorker, worker := Holding, interval := NextRetry(s.interval, true))
      else s.(worker := Sleeping)
    case Timer => s.(worker := Looking, interval := NextRetry(s.interval, false))
    case TakePending =>
      // An unset slot would be read as its zero value; the invariant excludes it.
      var event := if s.pending.Some? then s.pending.value else 0;
      s.(worker := Handling(event, Rechecking), pending := None, covered := |s.deferred|)
    case WorkerStep =>
      var phase := s.worker.phase;
      if phase == Releasing then s.(worker := Looking, holder := Nobody)
      else s.(active := if phase == Acting then None else s.active,
              worker := Handling(s.worker.event, NextPhase(s, phase)))
    case Cancel => s.(worker := Stopped)
    case LifecycleLock => s.(holder := Lifecycle)
    case LifecycleUnlock => s.(holder := Nobody)
    case SelectPeer(peer) => s.(bestPeer := peer)
    // A switch that meets contention is dropped.
    case Switch(conn) => if s.holder == Nobody then s.(holder := Switcher(conn, Rechecking)) else s
    case SwitchStep(available) =>
      var conn, phase := s.holder.conn, s.holder.phase;
      match phase
      case Rechecking => s.(holder := Switcher(conn, if s.bestPeer == Some(conn) then Acting else Releasing))
      case Acting => s.(active := if available then Some(conn) else s.active, holder := Switcher(conn, Releasing))
      case Releasing => s.(holder := Nobody)
  }

  // ----- no transition is lost -----

  /** Someone is still going to look at the pending event. */
  predicate Attended(s: State) {
    s.wake || s.deferring > 0 || s.worker !in {Waiting, Stopped}
  }

  ghost predicate Inv(s: State) {
    // A pending event has a wake token, a draining worker or a handler about to send one.
    && (s.pending.Some? && s.worker != Stopped ==> Attended(s))
    // The pending event is the newest deferred one; without one, every deferral was followed by a drain.
    && s.covered <= |s.deferred|
    && (s.pending.Some? ==> s.covered < |s.deferred| && s.pending.value == s.deferred[|s.deferred| - 1])
    && (s.pending.None? ==> s.covered == |s.deferred|)
    // The worker tries the lock, and takes the event, only with an event to take.
    && (s.worker in {Trying, Holding} ==> s.pending.Some?)
    && (s.holder == TheWorker <==> s.worker == Holding || s.worker.Handling?)
    && INITIAL_RETRY <= s.interval <= MAX_RETRY
  }

  lemma StepKeepsInv(s: State, step: Step)
    requires Inv(s) && Enabled(s, step)
    ensures Inv(Apply(s, step))
    ensures step == TakePending ==> Apply(s, step).worker == Handling(s.deferred[|s.deferred| - 1], Rechecking)
    ensures step != TakePending ==> Apply(s, step).covered == s.covered
  {
    match step
    case Try => assert NextRetry(s.interval, true) == INITIAL_RETRY;
    case Timer => assert NextRetry(s.interval, false) <= MAX_RETRY;
    case _ =>
  }

  ghost predicate IsRun(states: seq<State>, steps: seq<Step>) {
    && |states| == |steps| + 1
    && states[0] == Init()
    && forall k :: 0 <= k < |steps| ==> Enabled(states[k], steps[k]) && states[k + 1] == Apply(states[k], steps[k])
  }

  lemma {:induction false} RunKeepsInv(states: seq<State>, steps: seq<Step>, k: nat)
    requires IsRun(states, steps) && k <= |steps|
    ensures Inv(states[k])
  {
    if k == 0 {
    } else {
      RunKeepsInv(states, steps, k - 1);
      StepKeepsInv(states[k - 1], steps[k - 1]);
    }
  }

  /** Only the worker's taking of an event covers deferrals, all those made by then. */
  lemma OnlyDrainsCover(s: State, step: Step, event: nat)
    requires Inv(s) && Enabled(s, step) && s.covered <= event < Apply(s, step).covered
    ensures step == TakePending && event < |s.deferred|
  {
    StepKeepsInv(s, step);
  }

  /** A drain lies between a state that does not cover deferral number `event` and one that
      covers it. */
  lemma {:induction false} DrainBetween(states: seq<State>, steps: seq<Step>, lo: nat, hi: nat, event: nat)
    returns (i: nat)
    requires IsRun(states, steps) && lo <= hi <= |steps|
    requires states[lo].covered <= event < states[hi].covered
    ensures lo <= i < hi && steps[i] == TakePending && event < |states[i].deferred|
    decreases hi
  {
    i := hi - 1;
    if event < states[i].covered {
      i := DrainBetween(states, steps, lo, i, event);
    } else {
      RunKeepsInv(states, steps, i);
      OnlyDrainsCover(states[i], steps[i], event);
    }
  }

  /** In every interleaving: once an event has been deferred, the worker is alive and nobody is
      left to look at a pending event, the worker has taken an event after that deferral, and
      what it took was the newest one deferred by then. */
  lemma EveryDeferralIsDrained(states: seq<State>, steps: seq<Step>, k: nat, j: nat) returns (i: nat)
    requires IsRun(states, steps) && k < j <= |steps|
    requires steps[k].Event? && states[k].holder != Nobody
    requires !Attended(states[j]) && states[j].worker != Stopped
    ensures states[j].pending.None?
    ensures k < i < j && steps[i] == TakePending
    ensures |states[k].deferred| < |states[i].deferred| && states[i].deferred[|states[k].deferred|] == steps[k].prev
    ensures states[i + 1].worker == Handling(states[i].deferred[|states[i].deferred| - 1], Rechecking)
  {
    RunKeepsInv(states, steps, k);
    RunKeepsInv(states, steps, j);
    StepKeepsInv(states[k], steps[k]);
    DeferralsAreKept(states, steps, k + 1, j);
    i := DrainBetween(states, steps, k + 1, j, |states[k].deferred|);
    RunKeepsInv(states, steps, i);
    StepKeepsInv(states[i], steps[i]);
    DeferralsAreKept(states, steps, k + 1, i);
  }

  lemma {:induction false} DeferralsAreKept(states: seq<State>, steps: seq<Step>, lo: nat, hi: nat)
    requires IsRun(states, steps) && lo <= hi <= |steps|
    ensures states[lo].deferred <= states[hi].deferred
    decreases hi
  {
    if lo == hi {
    } else {
      DeferralsAreKept(states, steps, lo, hi - 1);
    }
  }

  // ----- a stalled selection is cleared -----

  /** The handler, or the worker, still has the clearing ahead of it. */
  predicate HandlerToClear(s: State) {
    s.holder in {AHandler(Rechecking), AHandler(Acting)}
  }

  predicate WorkerToClear(s: State) {
    s.worker.Handling? && s.worker.phase != Releasing
  }

  /** The step that clears the active connection. */
  predicate Clears(s: State, step: Step) {
    (step == HandlerStep && s.holder == AHandler(Acting)) ||
    (step == WorkerStep && s.worker.Handling? && s.worker.phase == Acting)
  }

  lemma StillToClear(s: State, step: Step)
    requires Inv(s) && Enabled(s, step) && s.bestPeer.None? && !Clears(s, step)
    ensures HandlerToClear(s) ==> HandlerToClear(Apply(s, step))
    ensures WorkerToClear(s) ==> WorkerToClear(Apply(s, step))
  {
  }

  /** While the selector has no best peer, nobody gets past a clearing without clearing. */
  lemma {:induction false} ClearedBetween(states: seq<State>, steps: seq<Step>, lo: nat, hi: nat) returns (h: nat)
    requires IsRun(states, steps) && lo <= hi <= |steps|
    requires forall m :: lo <= m <= hi ==> states[m].bestPeer.None?
    requires (HandlerToClear(states[lo]) && !HandlerToClear(states[hi])) ||
             (WorkerToClear(states[lo]) && !WorkerToClear(states[hi]))
    ensures lo <= h < hi && Clears(states[h], steps[h])
    decreases hi - lo
  {
    RunKeepsInv(states, steps, lo);
    if Clears(states[lo], steps[lo]) {
      h := lo;
    } else {
      StillToClear(states[lo], steps[lo]);
      h := ClearedBetween(states, steps, lo + 1, hi);
    }
  }

  /** Once cleared, the active connection stays cleared while the selector has no best peer. */
  lemma {:induction false} ClearedUntilSelected(states: seq<State>, steps: seq<Step>, h: nat, j: nat)
    requires IsRun(states, steps) && h < j <= |steps| && Clears(states[h], steps[h])
    requires forall m :: h <= m <= j ==> states[m].bestPeer.None?
    ensures Cleared(states[j])
    decreases j
  {
    RunKeepsInv(states, steps, j - 1);
    if j > h + 1 {
      ClearedUntilSelected(states, steps, h, j - 1);
    }
    StaysCleared(states[j - 1], steps[j - 1]);
  }

  /** No connection is active and no switch is about to make one so. */
  predicate Cleared(s: State) {
    s.active.None? && !(s.holder.Switcher? && s.holder.phase == Acting)
  }

  lemma StaysCleared(s: State, step: Step)
    requires Inv(s) && Enabled(s, step) && s.bestPeer.None?
    requires Cleared(s) || Clears(s, step)
    ensures Apply(s, step).bestPeer.None? ==> Cleared(Apply(s, step))
  {
  }

  /** In every interleaving: if the selector has had no best peer since an event was raised, then
      once the handlers and the worker have come to rest no connection is active, whether the
      event was handled at once or deferred, and however many switches and events raced with it. */
  lemma StalledSelectionIsCleared(states: seq<State>, steps: seq<Step>, k: nat, j: nat)
    requires IsRun(states, steps) && k < j <= |steps| && steps[k].Event?
    requires forall m :: k <= m <= j ==> states[m].bestPeer.None?
    requires !Attended(states[j]) && states[j].worker != Stopped && !states[j].holder.AHandler?
    ensures states[j].active.None?
  {
    if states[k].holder == Nobody {
      var h := ClearedBetween(states, steps, k + 1, j);
      ClearedUntilSelected(states, steps, h, j);
    } else {
      var i := EveryDeferralIsDrained(states, steps, k, j);
      var h := ClearedBetween(states, steps, i + 1, j);
      ClearedUntilSelected(states, steps, h, j);
    }
  }

  // ----- when a wanted connection is safe -----

  /** Someone asked the selector before it wanted `peer` and will act on the answer. */
  predicate ActsOnOldAnswer(s: State, peer: Conn) {
    || s.holder == AHandler(Acting)
    || (s.holder.Switcher? && s.holder.phase == Acting && s.holder.conn != peer)
    || (s.worker.Handling? && s.worker.phase == Acting)
  }

  lemma WantedAfterStep(s: State, step: Step, peer: Conn)
    requires Enabled(s, step) && s.active == s.bestPeer == Some(peer) && !ActsOnOldAnswer(s, peer)
    ensures Apply(s, step).active == Some(peer) && !ActsOnOldAnswer(Apply(s, step), peer)
  {
    match step
    case HandlerStep => assert NextPhase(s, s.holder.phase) == Releasing;
    case WorkerStep => assert NextPhase(s, s.worker.phase) == Releasing;
    case _ =>
  }

  /** Unless someone is already past its recheck, no event and no switch takes away the connection
      the selector wants. */
  lemma {:induction false} WantedStaysActive(states: seq<State>, steps: seq<Step>, k: nat, j: nat, peer: Conn)
    requires IsRun(states, steps) && k <= j <= |steps|
    requires states[k].active == Some(peer) && !ActsOnOldAnswer(states[k], peer)
    requires forall m :: k <= m <= j ==> states[m].bestPeer == Some(peer)
    ensures states[j].active == Some(peer) && !ActsOnOldAnswer(states[j], peer)
    decreases j
  {
    if k < j {
      WantedStaysActive(states, steps, k, j - 1, peer);
      WantedAfterStep(states[j - 1], steps[j - 1], peer);
    }
  }

  /** The condition is exact: whoever is past its recheck can take that connection away at once. */
  lemma OldAnswerTakesActive(s: State, peer: Conn) returns (step: Step)
    requires s.active == s.bestPeer == Some(peer) && ActsOnOldAnswer(s, peer)
    ensures Enabled(s, step) && Apply(s, step).bestPeer == Some(peer) && Apply(s, step).active != Some(peer)
  {
    step := if s.holder == AHandler(Acting) then HandlerStep
            else if s.holder.Switcher? && s.holder.phase == Acting && s.holder.conn != peer then SwitchStep(true)
            else WorkerStep;
  }

  /** And it happens: a peer is selected, lost, and selected again between a handler's recheck and
      its clearing. */
  lemma RecheckCanBeOutrun()
    ensures exists states: seq<State>, steps: seq<Step>, k: nat ::
              && IsRun(states, steps) && k < |steps|
              && states[k].active == states[k].bestPeer == Some(1)
              && states[k + 1].bestPeer == Some(1) && states[k + 1].active == None
  {
    var states, steps := SelectFirst();
    states, steps := Extended(states, steps, SelectPeer(None));
    states, steps := Extended(states, steps, Event(1));
    states, steps := Extended(states, steps, HandlerStep);
    states, steps := Extended(states, steps, SelectPeer(Some(1)));
    assert states[|steps|] == Init().(bestPeer := Some(1), active := Some(1), holder := AHandler(Acting));
    states, steps := Extended(states, steps, HandlerStep);
    assert states[|steps|].active == None && states[|steps| - 1].active == Some(1);
  }

  lemma SelectFirst() returns (states: seq<State>, steps: seq<Step>)
    ensures IsRun(states, steps) && states[|steps|] == Init().(bestPeer := Some(1), active := Some(1))
  {
    states, steps := Extended([Init()], [], SelectPeer(Some(1)));
    states, steps := Extended(states, steps, Switch(1));
    states, steps := Extended(states, steps, SwitchStep(true));
    states, steps := Extended(states, steps, SwitchStep(true));
    states, steps := Extended(states, steps, SwitchStep(true));
  }

  lemma Extended(states: seq<State>, steps: seq<Step>, step: Step) returns (states': seq<State>, steps': seq<Step>)
    requires IsRun(states, steps) && Enabled(states[|steps|], step)
    ensures IsRun(states', steps') && steps' == steps + [step]
    ensures states' == states + [Apply(states[|steps|], step)]
    ensures states'[|steps'|] == Apply(states[|steps|], step) && states'[|steps|] == states[|steps|]
  {
    states', steps' := states + [Apply(states[|steps|], step)], steps + [step];
  }

  // ----- a pending event is drained once the lock is free -----

  /** The steps of the worker and of handlers mid-send. */
  predicate Internal(step: Step) {
    step in {SendWake, Wake, Look, Try, Timer, TakePending, WorkerStep}
  }

  function Rank(s: State): nat {
    9 * s.deferring + 8 * (if s.wake then 1 else 0) +
    match s.worker
    case Handling(_, phase) => (match phase case Rechecking => 7 case Acting => 6 case Releasing => 5)
    case Sleeping => 4
    case Looking => 3
    case Trying => 2
    case Holding => 1
    case Waiting => 0
    case Stopped => 0
  }

  /** The step someone can take next. */
  function NextStep(s: State): Step {
    match s.worker
    case Looking => Look
    case Trying => Try
    case Sleeping => Timer
    case Holding => TakePending
    case Handling(_, _) => WorkerStep
    case _ => if s.wake then Wake else SendWake
  }

  /** An event is pending, the worker is alive and nobody else holds the lock. */
  ghost predicate Drainable(s: State) {
    Inv(s) && s.pending.Some? && s.holder in {Nobody, TheWorker} && s.worker != Stopped
  }

  lemma DrainComesNearer(s: State, step: Step)
    requires Drainable(s)
    ensures Internal(NextStep(s)) && Enabled(s, NextStep(s))
    ensures Internal(step) && Enabled(s, step) && step != TakePending ==>
              Drainable(Apply(s, step)) && Rank(Apply(s, step)) < Rank(s)
  {
    if Internal(step) && Enabled(s, step) && step != TakePending {
      StepKeepsInv(s, step);
    }
  }

  ghost predicate IsPath(states: seq<State>, steps: seq<Step>) {
    && |states| == |steps| + 1
    && forall k :: 0 <= k < |steps| ==>
         Internal(steps[k]) && Enabled(states[k], steps[k]) && states[k + 1] == Apply(states[k], steps[k])
  }

  /** While the lock stays free of others, any `Rank(s) + 1` steps of the worker and of the
      handlers mid-send include the one that takes the pending event. */
  lemma {:induction false} PendingIsDrained(states: seq<State>, steps: seq<Step>)
    requires IsPath(states, steps) && Drainable(states[0]) && |steps| > Rank(states[0])
    ensures TakePending in steps
    decreases |steps|
  {
    DrainComesNearer(states[0], steps[0]);
    if steps[0] != TakePending {
      PendingIsDrained(states[1..], steps[1..]);
      assert TakePending in steps[1..];
    }
  }

  // ----- the retry schedule -----

  /** The interval after `n` failed attempts in a row. */
  function RetryAfter(n: nat): nat {
    if n == 0 then INITIAL_RETRY else NextRetry(RetryAfter(n - 1), false)
  }

  function Pow2(n: nat): nat {
    if n == 0 then 1 else 2 * Pow2(n - 1)
  }

  /** Contention backs off exponentially from the initial interval up to the cap. */
  lemma {:induction false} RetrySchedule(n: nat)
    ensures RetryAfter(n) == if INITIAL_RETRY * Pow2(n) < MAX_RETRY then INITIAL_RETRY * Pow2(n) else MAX_RETRY
  {
    if n == 0 {
    } else {
      RetrySchedule(n - 1);
    }
  }
}
