/** The draining worker pool behind the `*All` pagination calls (api_account.go).

    One producer numbers pages and puts them on a job channel; `R` workers fetch pages and
    put results on a result channel; a short page raises a one-slot quit signal. The server
    holds `F` full pages, then short ones. A step is one channel operation or fetch, so a run
    is any interleaving the scheduler may choose. */
module PagePool {

  datatype Server = Server(fullPages: nat, routines: nat)

  /** What the producer is about to do: look at the quit signal, put the next page on the job
      channel, or (after closing it) wait for the workers and close the results. */
  datatype Producer = Checking | Issuing | Waiting | Done

  datatype Worker = Idle | Fetching(page: nat) | Sending(page: nat) | Exited

  /** `issued` counts the pages put on the job channel; `received` is what the consumer got. */
  datatype State = State(producer: Producer, issued: nat, jobs: seq<nat>, quit: bool, workers: seq<Worker>,
                         results: seq<nat>, received: seq<nat>)

  datatype Step =
    | Check
    | Issue
    | Close
    | Take(w: nat)
    | Fetch(w: nat)
    | Send(w: nat)
    | Exit(w: nat)
    | Receive

  function Init(sv: Server): State {
    State(Checking, 0, [], false, seq(sv.routines, _ => Idle), [], [])
  }

  predicate Short(sv: Server, page: nat) {
    page > sv.fullPages
  }

  predicate AtWorker(s: State, w: nat) {
    w < |s.workers|
  }

  /** Both channels are buffered with one slot for each worker. */
  predicate Enabled(sv: Server, s: State, step: Step) {
    match step
    case Check => s.producer == Checking
    case Issue => s.producer == Issuing && |s.jobs| < sv.routines
    case Close => s.producer == Waiting && forall w :: 0 <= w < |s.workers| ==> s.workers[w].Exited?
    case Take(w) => AtWorker(s, w) && s.workers[w].Idle? && s.jobs != []
    case Fetch(w) => AtWorker(s, w) && s.workers[w].Fetching?
    case Send(w) => AtWorker(s, w) && s.workers[w].Sending? && |s.results| < sv.routines
    case Exit(w) => AtWorker(s, w) && s.workers[w].Idle? && s.jobs == [] && s.producer in {Waiting, Done}
    case Receive => s.results != []
  }

  function Apply(sv: Server, s: State, step: Step): State
    requires Enabled(sv, s, step)
  {
    match step
    case Check => if s.quit then s.(quit := false, producer := Waiting) else s.(producer := Issuing)
    case Issue => s.(jobs := s.jobs + [s.issued + 1], issued := s.issued + 1, producer := Checking)
    case Close => s.(producer := Done)
    case Take(w) => s.(jobs := s.jobs[1..], workers := s.workers[w := Fetching(s.jobs[0])])
    case Fetch(w) =>
      var page := s.workers[w].page;
      s.(workers := s.workers[w := Sending(page)], quit := s.quit || Short(sv, page))
    case Send(w) => s.(results := s.results + [s.workers[w].page], workers := s.workers[w := Idle])
    case Exit(w) => s.(workers := s.workers[w := Exited])
    case Receive => s.(results := s.results[1..], received := s.received + [s.results[0]])
  }

  // ----- where the pages are -----

  /** How many workers are fetching a page, and how many are sending it. */
  function Fetchers(ws: seq<Worker>, page: nat): nat {
    if ws == [] then 0 else Fetchers(ws[1..], page) + if ws[0] == Fetching(page) then 1 else 0
  }

  function Senders(ws: seq<Worker>, page: nat): nat {
    if ws == [] then 0 else Senders(ws[1..], page) + if ws[0] == Sending(page) then 1 else 0
  }

  lemma {:induction false} CountsAfterUpdate(ws: seq<Worker>, i: nat, w: Worker, page: nat)
    requires i < |ws|
    ensures Fetchers(ws[i := w], page) ==
            Fetchers(ws, page) - (if ws[i] == Fetching(page) then 1 else 0) + (if w == Fetching(page) then 1 else 0)
    ensures Senders(ws[i := w], page) ==
            Senders(ws, page) - (if ws[i] == Sending(page) then 1 else 0) + (if w == Sending(page) then 1 else 0)
  {
    if i == 0 {
      assert ws[i := w][1..] == ws[1..];
    } else {
      assert ws[i := w][1..] == ws[1..][i - 1 := w];
      CountsAfterUpdate(ws[1..], i - 1, w, page);
    }
  }

  lemma {:induction false} SomeoneFetches(ws: seq<Worker>, page: nat)
    ensures Fetchers(ws, page) > 0 <==> Fetching(page) in ws
    ensures Senders(ws, page) > 0 <==> Sending(page) in ws
  {
    if ws != [] {
      SomeoneFetches(ws[1..], page);
      assert ws == [ws[0]] + ws[1..];
    }
  }

  /** How often a page occurs anywhere between being issued and being received. */
  function Copies(s: State, page: nat): nat {
    multiset(s.jobs)[page] + Fetchers(s.workers, page) + Senders(s.workers, page) +
    multiset(s.results)[page] + multiset(s.received)[page]
  }

  /** How often a page occurs where no worker has seen its length yet. */
  function Unseen(s: State, page: nat): nat {
    multiset(s.jobs)[page] + Fetchers(s.workers, page)
  }

  /** Every issued short page is still unseen. */
  ghost predicate NoShortPageSeen(sv: Server, s: State) {
    forall page: nat :: sv.fullPages < page <= s.issued ==> Unseen(s, page) > 0
  }

  /** Each issued page is in exactly one place, and no other page is anywhere. */
  ghost predicate EachOnce(s: State) {
    forall page: nat :: Copies(s, page) == if 1 <= page <= s.issued then 1 else 0
  }

  ghost predicate Inv(sv: Server, s: State) {
    && |s.workers| == sv.routines && |s.jobs| <= sv.routines && |s.results| <= sv.routines
    && EachOnce(s)
    // The signal is not given before a short page is seen, nor late once one is.
    && (s.producer in {Checking, Issuing} && !s.quit ==> NoShortPageSeen(sv, s))
    && (s.quit || s.producer in {Waiting, Done} ==> s.issued >= sv.fullPages + 1)
    && (s.producer == Issuing ==> s.issued <= sv.fullPages + 2 * sv.routines)
    && s.issued <= sv.fullPages + 2 * sv.routines + 1
    // Workers leave only once the job channel is closed; results close after all of them.
    && (s.producer in {Checking, Issuing} ==> NoneExited(s))
    && (s.producer == Done ==> AllExited(s))
    && (!NoneExited(s) ==> s.jobs == [])
  }

  predicate NoneExited(s: State) {
    forall w :: 0 <= w < |s.workers| ==> !s.workers[w].Exited?
  }

  predicate AllExited(s: State) {
    forall w :: 0 <= w < |s.workers| ==> s.workers[w].Exited?
  }

  // ----- the invariant holds in every reachable state -----

  lemma {:induction false} NothingAtIdle(ws: seq<Worker>, page: nat)
    requires forall w :: 0 <= w < |ws| ==> ws[w] in {Idle, Exited}
    ensures Fetchers(ws, page) == 0 && Senders(ws, page) == 0
  {
    if ws != [] {
      NothingAtIdle(ws[1..], page);
    }
  }

  lemma InitInv(sv: Server)
    ensures Inv(sv, Init(sv))
  {
    forall page: nat ensures Copies(Init(sv), page) == 0 {
      NothingAtIdle(Init(sv).workers, page);
    }
  }

  function PagesIn(ws: seq<Worker>): set<nat> {
    if ws == [] then {} else PagesIn(ws[1..]) + if ws[0].Fetching? then {ws[0].page} else {}
  }

  lemma {:induction false} PagesInHolds(ws: seq<Worker>)
    ensures |PagesIn(ws)| <= |ws|
    ensures forall page: nat :: Fetching(page) in ws ==> page in PagesIn(ws)
  {
    if ws != [] {
      PagesInHolds(ws[1..]);
      assert ws == [ws[0]] + ws[1..];
    }
  }

  function ToSet(xs: seq<nat>): set<nat> {
    if xs == [] then {} else ToSet(xs[1..]) + {xs[0]}
  }

  lemma {:induction false} ToSetHolds(xs: seq<nat>)
    ensures |ToSet(xs)| <= |xs| && forall x :: x in xs ==> x in ToSet(xs)
  {
    if xs != [] {
      ToSetHolds(xs[1..]);
      assert xs == [xs[0]] + xs[1..];
    }
  }

  lemma {:induction false} AtLeast(s: set<nat>, low: nat, high: nat)
    requires low <= high && forall page: nat :: low < page <= high ==> page in s
    ensures |s| >= high - low
  {
    if low < high {
      AtLeast(s - {high}, low, high - 1);
    }
  }

  /** While no short page has been seen, the short pages fit in the job channel and the
      workers' hands. */
  lemma FewShortPages(sv: Server, s: State)
    requires Inv(sv, s) && NoShortPageSeen(sv, s)
    ensures s.issued <= sv.fullPages + 2 * sv.routines
  {
    if s.issued > sv.fullPages {
      PagesInHolds(s.workers);
      ToSetHolds(s.jobs);
      forall page: nat | sv.fullPages < page <= s.issued ensures page in ToSet(s.jobs) + PagesIn(s.workers) {
        assert Unseen(s, page) > 0;
        SomeoneFetches(s.workers, page);
      }
      AtLeast(ToSet(s.jobs) + PagesIn(s.workers), sv.fullPages, s.issued);
    }
  }

  lemma Appended(xs: seq<nat>, x: nat, page: nat)
    ensures multiset(xs + [x])[page] == multiset(xs)[page] + if x == page then 1 else 0
  {
  }

  lemma Removed(xs: seq<nat>, page: nat)
    requires xs != []
    ensures multiset(xs[1..])[page] == multiset(xs)[page] - if xs[0] == page then 1 else 0
  {
    assert xs == [xs[0]] + xs[1..];
  }

  /** Each step moves at most one page from one place to the next; only issuing adds one, and
      only fetching takes one out of the unseen. */
  lemma StepMovesPages(sv: Server, s: State, step: Step, page: nat)
    requires |s.workers| == sv.routines && Enabled(sv, s, step)
    ensures Copies(Apply(sv, s, step), page) == Copies(s, page) + if step.Issue? && page == s.issued + 1 then 1 else 0
    ensures !(step.Fetch? && s.workers[step.w].page == page) ==> Unseen(Apply(sv, s, step), page) >= Unseen(s, page)
    ensures step.Issue? && page == s.issued + 1 ==> Unseen(Apply(sv, s, step), page) > 0
  {
    match step
    case Check =>
    case Issue => Appended(s.jobs, s.issued + 1, page);
    case Close =>
    case Take(w) =>
      CountsAfterUpdate(s.workers, w, Fetching(s.jobs[0]), page);
      Removed(s.jobs, page);
    case Fetch(w) => CountsAfterUpdate(s.workers, w, Sending(s.workers[w].page), page);
    case Send(w) =>
      CountsAfterUpdate(s.workers, w, Idle, page);
      Appended(s.results, s.workers[w].page, page);
    case Exit(w) => CountsAfterUpdate(s.workers, w, Exited, page);
    case Receive =>
      Removed(s.results, page);
      Appended(s.received, s.results[0], page);
  }

  lemma StepKeepsPages(sv: Server, s: State, step: Step)
    requires Inv(sv, s) && Enabled(sv, s, step)
    ensures EachOnce(Apply(sv, s, step))
    ensures var t := Apply(sv, s, step); t.producer in {Checking, Issuing} && !t.quit ==> NoShortPageSeen(sv, t)
  {
    var t := Apply(sv, s, step);
    forall page: nat ensures Copies(t, page) == if 1 <= page <= t.issued then 1 else 0 {
      StepMovesPages(sv, s, step, page);
    }
    if t.producer in {Checking, Issuing} && !t.quit {
      forall page: nat | sv.fullPages < page <= t.issued ensures Unseen(t, page) > 0 {
        StepMovesPages(sv, s, step, page);
      }
    }
  }

  /** Every step keeps the invariant. */
  lemma StepKeepsInv(sv: Server, s: State, step: Step)
    requires Inv(sv, s) && Enabled(sv, s, step)
    ensures Inv(sv, Apply(sv, s, step))
  {
    StepKeepsPages(sv, s, step);
    if step.Check? && !s.quit {
      FewShortPages(sv, s);
    }
    if step.Fetch? {
      var page := s.workers[step.w].page;
      SomeoneFetches(s.workers, page);
      assert Copies(s, page) > 0;
    }
  }

  // ----- runs -----

  /** A run from the initial state, given by its steps and the states they pass through. */
  ghost predicate IsRun(sv: Server, states: seq<State>, steps: seq<Step>) {
    && |states| == |steps| + 1
    && states[0] == Init(sv)
    && forall k :: 0 <= k < |steps| ==>
                  Enabled(sv, states[k], steps[k]) && states[k + 1] == Apply(sv, states[k], steps[k])
  }

  /** A bound on the steps still possible: what each page and each thread has left to do. */
  function Budget(sv: Server, s: State): int {
    8 * (sv.fullPages + 2 * sv.routines + 1 - s.issued)
    + (match s.producer case Checking => 3 case Issuing => 2 case Waiting => 1 case Done => 0)
    + 4 * |s.jobs| + WorkLeft(s.workers) + |s.results|
  }

  function WorkOf(w: Worker): nat {
    match w
    case Idle => 1
    case Fetching(_) => 4
    case Sending(_) => 3
    case Exited => 0
  }

  function WorkLeft(ws: seq<Worker>): nat {
    if ws == [] then 0 else WorkLeft(ws[1..]) + WorkOf(ws[0])
  }

  lemma {:induction false} WorkAfterUpdate(ws: seq<Worker>, i: nat, w: Worker)
    requires i < |ws|
    ensures WorkLeft(ws[i := w]) == WorkLeft(ws) - WorkOf(ws[i]) + WorkOf(w)
  {
    if i == 0 {
      assert ws[i := w][1..] == ws[1..];
    } else {
      assert ws[i := w][1..] == ws[1..][i - 1 := w];
      WorkAfterUpdate(ws[1..], i - 1, w);
    }
  }

  /** Every step uses up budget, whichever step the scheduler picks. */
  lemma StepUsesBudget(sv: Server, s: State, step: Step)
    requires Inv(sv, s) && Enabled(sv, s, step)
    ensures 0 <= Budget(sv, Apply(sv, s, step)) < Budget(sv, s)
  {
    StepKeepsInv(sv, s, step);
    match step
    case Take(w) => WorkAfterUpdate(s.workers, w, Fetching(s.jobs[0]));
    case Fetch(w) => WorkAfterUpdate(s.workers, w, Sending(s.workers[w].page));
    case Send(w) => WorkAfterUpdate(s.workers, w, Idle);
    case Exit(w) => WorkAfterUpdate(s.workers, w, Exited);
    case _ =>
  }

  /** The result channel is closed and the consumer has emptied it. */
  predicate Finished(s: State) {
    s.producer == Done && s.results == []
  }

  /** While the consumer drains, some step is always possible until everything is finished. */
  lemma NeverStuck(sv: Server, s: State) returns (step: Step)
    requires Inv(sv, s) && !Finished(s) && sv.routines > 0
    ensures Enabled(sv, s, step)
  {
    if s.results != [] {
      return Receive;
    }
    if w: nat :| AtWorker(s, w) && s.workers[w].Sending? {
      return Send(w);
    }
    if w: nat :| AtWorker(s, w) && s.workers[w].Fetching? {
      return Fetch(w);
    }
    if w: nat :| AtWorker(s, w) && s.workers[w].Idle? && s.jobs != [] {
      return Take(w);
    }
    if w: nat :| AtWorker(s, w) && s.workers[w].Idle? && s.producer in {Waiting, Done} {
      return Exit(w);
    }
    assert forall w :: 0 <= w < |s.workers| ==> AtWorker(s, w);
    match s.producer
    case Checking => return Check;
    case Issuing =>
      assert AtWorker(s, 0);
      return Issue;
    case Waiting => return Close;
    case Done =>
  }

  lemma {:induction false} RunKeepsInv(sv: Server, states: seq<State>, steps: seq<Step>, k: nat)
    requires IsRun(sv, states, steps) && k <= |steps|
    ensures Inv(sv, states[k]) && Budget(sv, states[k]) <= Budget(sv, Init(sv)) - k
  {
    if k == 0 {
      InitInv(sv);
    } else {
      RunKeepsInv(sv, states, steps, k - 1);
      StepKeepsInv(sv, states[k - 1], steps[k - 1]);
      StepUsesBudget(sv, states[k - 1], steps[k - 1]);
    }
  }

  /** Once the result channel closes, every issued page is in it or has been received, once. */
  lemma ClosedAfterEveryPage(sv: Server, s: State, page: nat)
    requires Inv(sv, s) && s.producer == Done && sv.routines > 0
    ensures multiset(s.results)[page] + multiset(s.received)[page] == if 1 <= page <= s.issued then 1 else 0
  {
    assert s.workers[0].Exited?;
    NothingAtIdle(s.workers, page);
    assert Copies(s, page) == if 1 <= page <= s.issued then 1 else 0;
  }

  /** Every interleaving is finite; at no point is a page lost, repeated or out of range; and a
      run that can go no further has delivered pages 1 to N once each and closed, with
      F + 1 <= N <= F + 2R + 1. */
  lemma EveryRunDelivers(sv: Server, states: seq<State>, steps: seq<Step>)
    requires IsRun(sv, states, steps) && sv.routines > 0
    ensures |steps| <= Budget(sv, Init(sv))
    ensures var s := states[|steps|];
            && (forall page: nat :: multiset(s.received)[page] <= if 1 <= page <= s.issued then 1 else 0)
            && ((forall step :: !Enabled(sv, s, step)) ==>
                  && Finished(s)
                  && sv.fullPages + 1 <= s.issued <= sv.fullPages + 2 * sv.routines + 1
                  && forall page: nat :: multiset(s.received)[page] == if 1 <= page <= s.issued then 1 else 0)
  {
    var s := states[|steps|];
    RunKeepsInv(sv, states, steps, |steps|);
    assert Budget(sv, s) >= 0;
    forall page: nat ensures multiset(s.received)[page] <= if 1 <= page <= s.issued then 1 else 0 {
      assert Copies(s, page) == if 1 <= page <= s.issued then 1 else 0;
    }
    if forall step :: !Enabled(sv, s, step) {
      if !Finished(s) {
        var step := NeverStuck(sv, s);
      }
      forall page: nat ensures multiset(s.received)[page] == if 1 <= page <= s.issued then 1 else 0 {
        assert Copies(s, page) == if 1 <= page <= s.issued then 1 else 0;
        NothingAtIdle(s.workers, page);
      }
    }
  }
}
