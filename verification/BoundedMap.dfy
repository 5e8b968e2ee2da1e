/** The bounded concurrent map: workers share one counter and one array of results. */
module BoundedMap {
  import opened Wrappers

  /** A worker is about to test the counter, awaiting its call, or finished. */
  datatype Worker = Ready | Calling(index: nat) | Finished

  /** `claims` records the indices in the order they were taken. */
  datatype State<R> = State(next: nat, workers: seq<Worker>, results: seq<Option<R>>, claims: seq<nat>)

  function WorkerCount(concurrency: real, n: nat): (k: nat)
    ensures k <= n && (n > 0 ==> k > 0)
  {
    var limit := if concurrency.Floor < 1 then 1 else concurrency.Floor;
    if limit < n then limit else n
  }

  function Start<R>(concurrency: real, n: nat): State<R> {
    State(0, seq(WorkerCount(concurrency, n), _ => Ready), seq(n, _ => None), [])
  }

  /** One worker moves up to its next await, or past it. */
  function Step<T, R>(s: State<R>, values: seq<T>, fn: T -> R, w: nat): State<R>
    requires w < |s.workers| && |s.results| == |values|
  {
    match s.workers[w]
    case Ready =>
      if s.next < |values|
      then State(s.next + 1, s.workers[w := Calling(s.next)], s.results, s.claims + [s.next])
      else s.(workers := s.workers[w := Finished])
    case Calling(i) =>
      if i < |values|
      then s.(workers := s.workers[w := Ready], results := s.results[i := Some(fn(values[i]))])
      else s
    case Finished => s
  }

  // ---------------------------------------------------------------------------
  // What every step keeps
  // ---------------------------------------------------------------------------

  predicate Claimed<R>(s: State<R>) {
    |s.claims| == s.next && forall i :: 0 <= i < s.next ==> s.claims[i] == i
  }

  /** Calls in flight are for distinct claimed indices that have no result yet. */
  predicate CallsDistinct<R>(s: State<R>) {
    && (forall w :: 0 <= w < |s.workers| && s.workers[w].Calling? ==> s.workers[w].index < s.next)
    && (forall v, w :: 0 <= v < w < |s.workers| && s.workers[v].Calling? && s.workers[w].Calling? ==>
          s.workers[v].index != s.workers[w].index)
  }

  predicate InFlight<R>(s: State<R>, i: nat) {
    exists w :: 0 <= w < |s.workers| && s.workers[w] == Calling(i)
  }

  /** Each claimed index is either in flight or done, and done means the function's answer. */
  predicate Accounted<T, R(==)>(s: State<R>, values: seq<T>, fn: T -> R)
    requires |s.results| == |values| && s.next <= |values|
  {
    && (forall i :: 0 <= i < s.next && !InFlight(s, i) ==> s.results[i] == Some(fn(values[i])))
    && (forall i :: 0 <= i < |values| && (s.next <= i || InFlight(s, i)) ==> s.results[i].None?)
  }

  predicate StopsAtEnd<R>(s: State<R>, n: nat) {
    forall w :: 0 <= w < |s.workers| && s.workers[w].Finished? ==> s.next == n
  }

  ghost predicate Inv<T, R>(s: State<R>, values: seq<T>, fn: T -> R) {
    && |s.results| == |values| && s.next <= |values|
    && Claimed(s) && CallsDistinct(s) && Accounted(s, values, fn) && StopsAtEnd(s, |values|)
  }

  lemma StartHolds<T, R>(concurrency: real, values: seq<T>, fn: T -> R)
    ensures Inv(Start(concurrency, |values|), values, fn)
  {
  }

  /** After a worker's move, an index is in flight by that worker or by one that did not move. */
  lemma InFlightAfter<R>(s: State<R>, s': State<R>, w: nat, i: nat)
    requires w < |s.workers| && |s'.workers| == |s.workers| && s'.workers == s.workers[w := s'.workers[w]]
    requires CallsDistinct(s)
    ensures InFlight(s', i) <==> s'.workers[w] == Calling(i) || (InFlight(s, i) && s.workers[w] != Calling(i))
  {
    if InFlight(s, i) && s.workers[w] != Calling(i) {
      var v :| 0 <= v < |s.workers| && s.workers[v] == Calling(i);
      assert s'.workers[v] == Calling(i);
    }
    if InFlight(s', i) && s'.workers[w] != Calling(i) {
      var v :| 0 <= v < |s'.workers| && s'.workers[v] == Calling(i);
      assert s.workers[v] == Calling(i);
    }
  }

  lemma ClaimKeeps<T, R>(s: State<R>, values: seq<T>, fn: T -> R, w: nat)
    requires Inv(s, values, fn) && w < |s.workers| && s.workers[w].Ready? && s.next < |values|
    ensures Inv(Step(s, values, fn, w), values, fn)
  {
    hide InFlight;
    var s' := Step(s, values, fn, w);
    forall i | 0 <= i < |values|
      ensures InFlight(s', i) <==> i == s.next || InFlight(s, i)
    {
      InFlightAfter(s, s', w, i);
    }
  }

  lemma ReturnKeeps<T, R>(s: State<R>, values: seq<T>, fn: T -> R, w: nat)
    requires Inv(s, values, fn) && w < |s.workers| && s.workers[w].Calling?
    ensures Inv(Step(s, values, fn, w), values, fn)
  {
    var s' := Step(s, values, fn, w);
    var at := s.workers[w].index;
    forall i | 0 <= i < |values|
      ensures InFlight(s', i) <==> InFlight(s, i) && i != at
    {
      InFlightAfter(s, s', w, i);
    }
  }

  lemma StopKeeps<T, R>(s: State<R>, values: seq<T>, fn: T -> R, w: nat)
    requires Inv(s, values, fn) && w < |s.workers| && s.workers[w].Ready? && s.next == |values|
    ensures Inv(Step(s, values, fn, w), values, fn)
  {
    hide InFlight;
    var s' := Step(s, values, fn, w);
    forall i | 0 <= i < |values|
      ensures InFlight(s', i) <==> InFlight(s, i)
    {
      InFlightAfter(s, s', w, i);
    }
  }

  lemma StepKeepsInv<T, R>(s: State<R>, values: seq<T>, fn: T -> R, w: nat)
    requires Inv(s, values, fn) && w < |s.workers|
    ensures Inv(Step(s, values, fn, w), values, fn) && |Step(s, values, fn, w).workers| == |s.workers|
  {
    hide Inv;
    assert |s.results| == |values| && s.next <= |values| by { InvSizes(s, values, fn); }
    match s.workers[w] {
      case Ready => if s.next < |values| { ClaimKeeps(s, values, fn, w); } else { StopKeeps(s, values, fn, w); }
      case Calling(i) => ReturnKeeps(s, values, fn, w);
      case Finished =>
    }
  }

  lemma InvSizes<T, R>(s: State<R>, values: seq<T>, fn: T -> R)
    requires Inv(s, values, fn)
    ensures |s.results| == |values| && s.next <= |values|
  {
  }

  // ---------------------------------------------------------------------------
  // Runs
  // ---------------------------------------------------------------------------

  /** A schedule names the worker that moves; names out of range move nobody. */
  function Exec<T, R>(concurrency: real, values: seq<T>, fn: T -> R, schedule: seq<nat>): (s: State<R>)
    ensures |s.results| == |values|
  {
    if schedule == [] then Start(concurrency, |values|)
    else
      var s := Exec(concurrency, values, fn, schedule[..|schedule| - 1]);
      var w := schedule[|schedule| - 1];
      if w < |s.workers| then Step(s, values, fn, w) else s
  }

  lemma {:induction false} ExecKeepsInv<T, R>(concurrency: real, values: seq<T>, fn: T -> R, schedule: seq<nat>)
    ensures
      var s := Exec(concurrency, values, fn, schedule);
      Inv(s, values, fn) && |s.workers| == WorkerCount(concurrency, |values|)
  {
    hide Inv, Step;
    StartHolds(concurrency, values, fn);
    if schedule != [] {
      var s := Exec(concurrency, values, fn, schedule[..|schedule| - 1]);
      var w := schedule[|schedule| - 1];
      ExecKeepsInv(concurrency, values, fn, schedule[..|schedule| - 1]);
      if w < |s.workers| { StepKeepsInv(s, values, fn, w); }
    }
  }

  function InFlightCount(workers: seq<Worker>): (k: nat)
    ensures k <= |workers|
  {
    if workers == [] then 0
    else InFlightCount(workers[..|workers| - 1]) + if workers[|workers| - 1].Calling? then 1 else 0
  }

  /** In every interleaving each index is claimed once, in order, and the calls in flight stay within the limit. */
  lemma ClaimedOnceWithinLimit<T, R>(concurrency: real, values: seq<T>, fn: T -> R, schedule: seq<nat>)
    ensures
      var s := Exec(concurrency, values, fn, schedule);
      && |s.claims| <= |values|
      && (forall i :: 0 <= i < |s.claims| ==> s.claims[i] == i)
      && InFlightCount(s.workers) <= WorkerCount(concurrency, |values|)
  {
    hide Exec;
    ExecKeepsInv(concurrency, values, fn, schedule);
  }

  predicate Complete<R>(s: State<R>) {
    forall w :: 0 <= w < |s.workers| ==> s.workers[w].Finished?
  }

  /** When every worker has finished, every result is the function's answer for its own value. */
  lemma CompletionIsTheMap<T, R>(concurrency: real, values: seq<T>, fn: T -> R, schedule: seq<nat>)
    requires Complete(Exec(concurrency, values, fn, schedule))
    ensures
      var s := Exec(concurrency, values, fn, schedule);
      && |s.results| == |values|
      && (forall i :: 0 <= i < |values| ==> s.results[i] == Some(fn(values[i])))
      && |s.claims| == |values|
  {
    hide Exec;
    ExecKeepsInv(concurrency, values, fn, schedule);
    var s := Exec(concurrency, values, fn, schedule);
    if |values| > 0 {
      assert s.workers[0].Finished?;
    }
  }

  // ---------------------------------------------------------------------------
  // Progress
  // ---------------------------------------------------------------------------

  function Weight(w: Worker): nat {
    match w
    case Ready => 1
    case Calling(_) => 2
    case Finished => 0
  }

  function Weights(workers: seq<Worker>): nat {
    if workers == [] then 0 else Weights(workers[..|workers| - 1]) + Weight(workers[|workers| - 1])
  }

  /** The moves that are still to come. */
  function Remaining<R>(s: State<R>, n: nat): int {
    2 * (n - s.next) + Weights(s.workers)
  }

  lemma {:induction false} WeightsUpdate(workers: seq<Worker>, w: nat, to: Worker)
    requires w < |workers|
    ensures Weights(workers[w := to]) == Weights(workers) - Weight(workers[w]) + Weight(to)
  {
    var last := |workers| - 1;
    if w < last {
      assert workers[w := to][..last] == workers[..last][w := to];
      WeightsUpdate(workers[..last], w, to);
    } else {
      assert workers[w := to][..last] == workers[..last];
    }
  }

  /** A move of an unfinished worker takes one off what remains, so no run can go on for ever. */
  lemma StepTakesWork<T, R>(s: State<R>, values: seq<T>, fn: T -> R, w: nat)
    requires Inv(s, values, fn) && w < |s.workers| && !s.workers[w].Finished?
    ensures 0 <= Remaining(Step(s, values, fn, w), |values|) < Remaining(s, |values|)
  {
    hide Accounted, Claimed, StopsAtEnd, Weights;
    StepKeepsInv(s, values, fn, w);
    match s.workers[w] {
      case Ready =>
        if s.next < |values| {
          WeightsUpdate(s.workers, w, Calling(s.next));
        } else {
          WeightsUpdate(s.workers, w, Finished);
        }
      case Calling(i) => WeightsUpdate(s.workers, w, Ready);
    }
  }

  /** As many workers as the concurrency allows, rounded down to one at least, and no more than there are values. */
  lemma WorkerCountIs(concurrency: real, n: nat)
    ensures
      var k := WorkerCount(concurrency, n);
      && (k == n || (k < n && k as real <= (if concurrency < 1.0 then 1.0 else concurrency) < k as real + 1.0))
      && (k > 1 ==> k as real <= concurrency)
  {
  }

  /** The calls in flight are counted worker by worker. */
  lemma InFlightCountIs(workers: seq<Worker>, w: Worker)
    ensures InFlightCount([]) == 0
    ensures InFlightCount(workers + [w]) == InFlightCount(workers) + if w.Calling? then 1 else 0
  {
    assert (workers + [w])[..|workers|] == workers;
  }

  lemma {:induction false} SomeoneUnfinished(workers: seq<Worker>) returns (w: nat)
    requires exists v :: 0 <= v < |workers| && !workers[v].Finished?
    ensures w < |workers| && !workers[w].Finished?
  {
    w :| w < |workers| && !workers[w].Finished?;
  }

  /** Every run can go on to its end: some continuation finishes every worker. */
  lemma {:induction false} CanComplete<T, R>(
    concurrency: real, values: seq<T>, fn: T -> R, schedule: seq<nat>) returns (rest: seq<nat>)
    ensures Complete(Exec(concurrency, values, fn, schedule + rest))
    decreases Remaining(Exec(concurrency, values, fn, schedule), |values|)
  {
    hide Exec, Remaining, Step;
    ExecKeepsInv(concurrency, values, fn, schedule);
    var s := Exec(concurrency, values, fn, schedule);
    if Complete(s) {
      rest := [];
      assert schedule + [] == schedule;
    } else {
      var w := SomeoneUnfinished(s.workers);
      StepTakesWork(s, values, fn, w);
      OneMove(concurrency, values, fn, schedule, w);
      var more := CanComplete(concurrency, values, fn, schedule + [w]);
      rest := [w] + more;
      assert schedule + rest == schedule + [w] + more;
    }
  }

  lemma OneMove<T, R>(concurrency: real, values: seq<T>, fn: T -> R, schedule: seq<nat>, w: nat)
    requires w < |Exec(concurrency, values, fn, schedule).workers|
    ensures Exec(concurrency, values, fn, schedule + [w])
         == Step(Exec(concurrency, values, fn, schedule), values, fn, w)
  {
    assert (schedule + [w])[..|schedule|] == schedule;
  }
}
