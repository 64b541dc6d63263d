/** mapWithConcurrency (concurrency.ts): workers sharing one cursor and one array of results. A worker is
    interleaved with the others at its await, so a schedule is any sequence of workers to run next. */
module WorkerPool {
  import opened Common

  // Free: about to test the loop guard. Busy: awaiting its call. Done: left the loop. Failed: its call rejected.
  datatype Worker = Free | Busy(index: nat) | Done | Failed(index: nat)

  datatype State<R> = State(workers: seq<Worker>, cursor: nat, results: seq<Option<R>>)

  // fn's result for an item and its index, and whether that call rejects instead.
  datatype Job<!T, R> = Job(items: seq<T>, limit: int, fn: (T, nat) -> R, rejects: nat -> bool)

  function WorkerCount<T, R>(job: Job<T, R>): (m: int)
    ensures m >= 1 && (|job.items| > 0 ==> m <= |job.items|)
  {
    Max(1, Min(job.limit, |job.items|))
  }

  function Init<T, R>(job: Job<T, R>): (s: State<R>)
    ensures Inv(job, s)
  {
    State(seq(WorkerCount(job), _ => Free), 0, seq(|job.items|, _ => None))
  }

  predicate Enabled<R>(s: State<R>, w: nat) {
    w < |s.workers| && (s.workers[w].Free? || s.workers[w].Busy?)
  }

  ghost predicate Quiet<R>(s: State<R>) {
    forall w :: !Enabled(s, w)
  }

  function Next<T, R>(job: Job<T, R>, s: State<R>, w: nat): State<R>
    requires Inv(job, s) && Enabled(s, w)
  {
    match s.workers[w]
    case Free =>
      if s.cursor < |job.items| then State(s.workers[w := Busy(s.cursor)], s.cursor + 1, s.results)
      else s.(workers := s.workers[w := Done])
    case Busy(i) =>
      if job.rejects(i) then s.(workers := s.workers[w := Failed(i)])
      else State(s.workers[w := Free], s.cursor, s.results[i := Some(job.fn(job.items[i], i))])
    case _ => s
  }

  // The index a worker answers for.
  function IndexOf(worker: Worker): Option<nat> {
    match worker
    case Busy(i) => Some(i)
    case Failed(i) => Some(i)
    case _ => None
  }

  ghost predicate Holds(workers: seq<Worker>, i: nat) {
    exists w :: 0 <= w < |workers| && IndexOf(workers[w]) == Some(i)
  }

  ghost predicate HeldOnce<R>(s: State<R>) {
    forall v, w :: 0 <= v < w < |s.workers| && IndexOf(s.workers[v]).Some? ==> IndexOf(s.workers[v]) != IndexOf(s.workers[w])
  }

  ghost predicate HeldIsOpen<R>(s: State<R>) {
    && s.cursor <= |s.results|
    && forall w :: 0 <= w < |s.workers| && IndexOf(s.workers[w]).Some? ==>
         IndexOf(s.workers[w]).value < s.cursor && s.results[IndexOf(s.workers[w]).value] == None
  }

  ghost predicate OpenIsHeld<R>(s: State<R>) {
    && s.cursor <= |s.results|
    && forall i: nat :: i < s.cursor && s.results[i] == None ==> Holds(s.workers, i)
  }

  ghost predicate Ended<T, R>(job: Job<T, R>, s: State<R>) {
    forall w :: 0 <= w < |s.workers| ==>
      && (s.workers[w].Done? ==> s.cursor == |job.items|)
      && (s.workers[w].Failed? ==> job.rejects(s.workers[w].index))
  }

  ghost predicate Right<T, R>(job: Job<T, R>, s: State<R>) {
    && |s.results| == |job.items|
    && forall i: nat :: i < |s.results| && s.results[i].Some? ==>
         i < s.cursor && !job.rejects(i) && s.results[i].value == job.fn(job.items[i], i)
  }

  // Every index below the cursor is held by one worker or has its result, never both.
  ghost predicate Inv<T, R>(job: Job<T, R>, s: State<R>) {
    && |s.workers| == WorkerCount(job)
    && HeldOnce(s) && HeldIsOpen(s) && OpenIsHeld(s) && Ended(job, s) && Right(job, s)
  }

  lemma NextKeepsHeldOnce<T, R>(job: Job<T, R>, s: State<R>, w: nat)
    requires Inv(job, s) && Enabled(s, w)
    ensures HeldOnce(Next(job, s, w)) && HeldIsOpen(Next(job, s, w))
  {
    var t := Next(job, s, w);
    forall v | 0 <= v < |t.workers| ensures v == w || t.workers[v] == s.workers[v] {
    }
  }

  lemma NextKeepsOpenIsHeld<T, R>(job: Job<T, R>, s: State<R>, w: nat)
    requires Inv(job, s) && Enabled(s, w)
    ensures OpenIsHeld(Next(job, s, w))
  {
    var t := Next(job, s, w);
    forall i: nat | i < t.cursor && t.results[i] == None ensures Holds(t.workers, i) {
      if i < s.cursor {
        assert Holds(s.workers, i);
        var v :| 0 <= v < |s.workers| && IndexOf(s.workers[v]) == Some(i);
        assert IndexOf(t.workers[v]) == Some(i);
      } else {
        assert IndexOf(t.workers[w]) == Some(i);
      }
    }
  }

  lemma NextKeeps<T, R>(job: Job<T, R>, s: State<R>, w: nat)
    requires Inv(job, s) && Enabled(s, w)
    ensures Inv(job, Next(job, s, w))
  {
    NextKeepsHeldOnce(job, s, w);
    NextKeepsOpenIsHeld(job, s, w);
  }

  // A schedule names only workers that can run.
  ghost predicate IsSchedule<T, R>(job: Job<T, R>, s: State<R>, schedule: seq<nat>)
    requires Inv(job, s)
    decreases |schedule|
  {
    schedule != [] ==>
      && Enabled(s, schedule[0])
      && (NextKeeps(job, s, schedule[0]); IsSchedule(job, Next(job, s, schedule[0]), schedule[1..]))
  }

  ghost function Run<T, R>(job: Job<T, R>, s: State<R>, schedule: seq<nat>): (t: State<R>)
    requires Inv(job, s) && IsSchedule(job, s, schedule)
    ensures Inv(job, t)
    decreases |schedule|
  {
    if schedule == [] then s
    else
      NextKeeps(job, s, schedule[0]);
      Run(job, Next(job, s, schedule[0]), schedule[1..])
  }

  // The indices fn is called with, in the order of the calls.
  ghost function Calls<T, R>(job: Job<T, R>, s: State<R>, schedule: seq<nat>): seq<nat>
    requires Inv(job, s) && IsSchedule(job, s, schedule)
    decreases |schedule|
  {
    if schedule == [] then []
    else
      NextKeeps(job, s, schedule[0]);
      var w := schedule[0];
      (if s.workers[w].Free? && s.cursor < |job.items| then [s.cursor] else []) + Calls(job, Next(job, s, w), schedule[1..])
  }

  // Whatever the schedule, fn is called with the indices in order, each once.
  lemma {:induction false} EachIndexOnce<T, R>(job: Job<T, R>, s: State<R>, schedule: seq<nat>)
    requires Inv(job, s) && IsSchedule(job, s, schedule)
    ensures var calls := Calls(job, s, schedule);
      && s.cursor + |calls| == Run(job, s, schedule).cursor
      && forall k :: 0 <= k < |calls| ==> calls[k] == s.cursor + k
    decreases |schedule|
  {
    if schedule != [] {
      NextKeeps(job, s, schedule[0]);
      EachIndexOnce(job, Next(job, s, schedule[0]), schedule[1..]);
    }
  }

  // ----- calls in flight

  function Held(workers: seq<Worker>): (held: set<nat>)
    ensures |held| <= |workers|
  {
    if workers == [] then {}
    else
      var rest := Held(workers[1..]);
      if IndexOf(workers[0]).Some? then rest + {IndexOf(workers[0]).value} else rest
  }

  lemma {:induction false} HeldIs(workers: seq<Worker>, w: nat, i: nat)
    requires w < |workers| && IndexOf(workers[w]) == Some(i)
    ensures i in Held(workers)
  {
    if w > 0 {
      HeldIs(workers[1..], w - 1, i);
    }
  }

  // At any moment of any run at most max(1, min(limit, n)) calls are under way.
  lemma InFlightIsBounded<T, R>(job: Job<T, R>, schedule: seq<nat>)
    requires IsSchedule(job, Init(job), schedule)
    ensures var t := Run(job, Init(job), schedule);
            |set i: nat | i < t.cursor && t.results[i] == None| <= Max(1, Min(job.limit, |job.items|))
  {
    var t := Run(job, Init(job), schedule);
    var inFlight := set i: nat | i < t.cursor && t.results[i] == None;
    forall i | i in inFlight ensures i in Held(t.workers) {
      assert Holds(t.workers, i);
      var w :| 0 <= w < |t.workers| && IndexOf(t.workers[w]) == Some(i);
      HeldIs(t.workers, w, i);
    }
    SubsetSize(inFlight, Held(t.workers));
  }

  lemma {:induction false} SubsetSize(a: set<nat>, b: set<nat>)
    requires a <= b
    ensures |a| <= |b|
  {
    assert b == a + (b - a);
  }

  // The first n workers have each begun their first call.
  ghost predicate Begun<T, R>(job: Job<T, R>, s: State<R>, n: nat) {
    && n <= |s.workers| && s.cursor == n
    && (forall w: nat :: w < |s.workers| ==> s.workers[w] == if w < n then Busy(w) else Free)
    && (forall i :: 0 <= i < |s.results| ==> s.results[i] == None)
  }

  lemma {:induction false} EachBegins<T, R>(job: Job<T, R>, s: State<R>, n: nat, m: nat)
    requires Inv(job, s) && Begun(job, s, n) && n <= m <= |s.workers| && m <= |job.items|
    ensures IsSchedule(job, s, seq(m - n, (k: nat) => n + k)) && Begun(job, Run(job, s, seq(m - n, (k: nat) => n + k)), m)
    decreases m - n
  {
    var schedule := seq(m - n, (k: nat) => n + k);
    if n < m {
      assert schedule[1..] == seq(m - (n + 1), (k: nat) => n + 1 + k);
      NextKeeps(job, s, n);
      EachBegins(job, Next(job, s, n), n + 1, m);
    }
  }

  // And that many get under way at once: the workers run before any call has come back.
  lemma AllBegin<T, R>(job: Job<T, R>)
    requires job.items != []
    ensures var m := Max(1, Min(job.limit, |job.items|));
            var schedule := seq(m, (k: nat) => k);
            IsSchedule(job, Init(job), schedule) && Begun(job, Run(job, Init(job), schedule), m)
  {
    var m := Max(1, Min(job.limit, |job.items|));
    EachBegins(job, Init(job), 0, m);
    assert seq(m, (k: nat) => k) == seq(m - 0, (k: nat) => 0 + k);
  }

  // ----- termination

  function Weight(workers: seq<Worker>): nat {
    if workers == [] then 0
    else (match workers[0] case Free => 1 case Busy(_) => 2 case _ => 0) + Weight(workers[1..])
  }

  lemma {:induction false} WeightSet(workers: seq<Worker>, w: nat, worker: Worker)
    requires w < |workers|
    ensures Weight(workers[w := worker]) == Weight(workers) - Weight([workers[w]]) + Weight([worker])
  {
    if w == 0 {
      assert workers[0 := worker][1..] == workers[1..];
    } else {
      assert workers[w := worker][1..] == workers[1..][w - 1 := worker];
      WeightSet(workers[1..], w - 1, worker);
    }
  }

  ghost function Remaining<T, R>(job: Job<T, R>, s: State<R>): nat
    requires Inv(job, s)
  {
    2 * (|job.items| - s.cursor) + Weight(s.workers)
  }

  lemma NextAdvances<T, R>(job: Job<T, R>, s: State<R>, w: nat)
    requires Inv(job, s) && Enabled(s, w) && Inv(job, Next(job, s, w))
    ensures Remaining(job, Next(job, s, w)) < Remaining(job, s)
    ensures !Next(job, s, w).workers[w].Failed? ==> Remaining(job, Next(job, s, w)) == Remaining(job, s) - 1
  {
    WeightSet(s.workers, w, Next(job, s, w).workers[w]);
  }

  lemma {:induction false} FreeWeight(n: nat)
    ensures Weight(seq(n, _ => Free)) == n
  {
    if n > 0 {
      assert seq(n, _ => Free)[1..] == seq(n - 1, _ => Free);
      FreeWeight(n - 1);
    }
  }

  lemma InitRemaining<T, R>(job: Job<T, R>)
    ensures Remaining(job, Init(job)) == 2 * |job.items| + WorkerCount(job)
  {
    FreeWeight(WorkerCount(job));
    assert Init(job).workers == seq(WorkerCount(job), _ => Free);
  }

  // No schedule runs for ever: each call is made and settled at most once and each worker leaves at most once.
  lemma {:induction false} RunsAreBounded<T, R>(job: Job<T, R>, s: State<R>, schedule: seq<nat>)
    requires Inv(job, s) && IsSchedule(job, s, schedule)
    ensures |schedule| + Remaining(job, Run(job, s, schedule)) <= Remaining(job, s)
    decreases |schedule|
  {
    if schedule != [] {
      NextKeeps(job, s, schedule[0]);
      NextAdvances(job, s, schedule[0]);
      RunsAreBounded(job, Next(job, s, schedule[0]), schedule[1..]);
    }
  }

  predicate SomeFailed<R>(s: State<R>) {
    exists w :: 0 <= w < |s.workers| && s.workers[w].Failed?
  }

  // When no worker can run, all have left and the results are complete and in the items' order, unless
  // some call rejected; and some call that rejects is reached whenever there is one.
  lemma QuietMeansComplete<T, R>(job: Job<T, R>, s: State<R>)
    requires |job.items| > 0 && Inv(job, s) && Quiet(s)
    ensures SomeFailed(s) <==> exists i: nat :: i < |job.items| && job.rejects(i)
    ensures !SomeFailed(s) ==> forall i: nat :: i < |job.items| ==> s.results[i] == Some(job.fn(job.items[i], i))
  {
    forall w: nat | w < |s.workers| ensures s.workers[w].Done? || s.workers[w].Failed? {
      assert !Enabled(s, w);
    }
    if SomeFailed(s) {
      var w :| 0 <= w < |s.workers| && s.workers[w].Failed?;
      assert IndexOf(s.workers[w]).Some? && job.rejects(s.workers[w].index);
    } else {
      assert s.workers[0].Done?;
      forall i: nat | i < |job.items| ensures s.results[i].Some? {
        assert !Holds(s.workers, i);
      }
    }
  }

  lemma CompleteResults<T, R>(job: Job<T, R>, s: State<R>)
    requires |job.items| > 0 && Inv(job, s) && Quiet(s)
    requires forall i: nat :: i < |job.items| ==> !job.rejects(i)
    ensures s.cursor == |job.items|
    ensures s.results == seq(|job.items|, i requires 0 <= i < |job.items| => Some(job.fn(job.items[i], i)))
  {
    QuietMeansComplete(job, s);
    var last: nat := |job.items| - 1;
    assert s.results[last].Some?;
  }

  // Any schedule that goes on until nothing can run, over any completion order.
  lemma EveryScheduleMapsTheItems<T, R>(job: Job<T, R>, schedule: seq<nat>)
    requires |job.items| > 0 && IsSchedule(job, Init(job), schedule)
    requires Quiet(Run(job, Init(job), schedule))
    requires forall i: nat :: i < |job.items| ==> !job.rejects(i)
    ensures |schedule| <= 2 * |job.items| + Max(1, Min(job.limit, |job.items|))
    ensures Calls(job, Init(job), schedule) == seq(|job.items|, (i: nat) => i)
    ensures Run(job, Init(job), schedule).results == seq(|job.items|, i requires 0 <= i < |job.items| => Some(job.fn(job.items[i], i)))
  {
    var t := Run(job, Init(job), schedule);
    assert |schedule| <= 2 * |job.items| + WorkerCount(job) by {
      InitRemaining(job);
      RunsAreBounded(job, Init(job), schedule);
    }
    CompleteResults(job, t);
    assert Calls(job, Init(job), schedule) == seq(|job.items|, (i: nat) => i) by {
      EachIndexOnce(job, Init(job), schedule);
    }
  }

  class Pool<T, R> {
    const job: Job<T, R>
    const workers: array<Worker>
    const results: array<Option<R>>
    var cursor: nat

    ghost predicate Valid()
      reads this, workers, results
    {
      Inv(job, View())
    }

    ghost function View(): State<R>
      reads this, workers, results
    {
      State(workers[..], cursor, results[..])
    }

    constructor (job: Job<T, R>)
      ensures Valid() && this.job == job && View() == Init(job)
      ensures fresh(workers) && fresh(results)
    {
      this.job := job;
      workers := new Worker[WorkerCount(job)](_ => Free);
      results := new Option<R>[|job.items|](_ => None);
      cursor := 0;
      new;
      assert workers[..] == Init(job).workers;
      assert results[..] == Init(job).results;
    }

    // One turn of worker w: from its await, or from the loop guard, to the next one.
    method Turn(w: nat)
      requires Valid() && Enabled(View(), w)
      modifies this`cursor, workers, results
      ensures Valid() && View() == Next(job, old(View()), w)
    {
      NextKeeps(job, View(), w);
      match workers[w] {
        case Free =>
          if cursor < |job.items| {
            workers[w] := Busy(cursor);
            cursor := cursor + 1;
          } else {
            workers[w] := Done;
          }
        case Busy(i) =>
          if job.rejects(i) {
            workers[w] := Failed(i);
          } else {
            results[i] := Some(job.fn(job.items[i], i));
            workers[w] := Free;
          }
        case _ =>
      }
    }
  }

  // pick is the event loop: any choice of a worker that can run, as long as there is one.
  method MapWithConcurrency<T, R(!new)>(job: Job<T, R>, pick: State<R> -> nat) returns (r: Option<seq<R>>)
    requires forall s: State<R> :: Enabled(s, pick(s)) || Quiet(s)
    ensures r == None <==> exists i: nat :: i < |job.items| && job.rejects(i)
    ensures r.Some? ==> r.value == seq(|job.items|, i requires 0 <= i < |job.items| => job.fn(job.items[i], i))
  {
    if job.items == [] {
      return Some([]);
    }
    var pool := new Pool(job);
    var state := State(pool.workers[..], pool.cursor, pool.results[..]);
    while Enabled(state, pick(state))
      invariant pool.Valid() && pool.job == job && state == pool.View()
      invariant fresh(pool) && fresh(pool.workers) && fresh(pool.results)
      decreases Remaining(job, state)
    {
      NextKeeps(job, state, pick(state));
      NextAdvances(job, state, pick(state));
      pool.Turn(pick(state));
      state := State(pool.workers[..], pool.cursor, pool.results[..]);
    }
    assert Enabled(state, pick(state)) || Quiet(state);
    QuietMeansComplete(job, state);
    if SomeFailed(state) {
      return None;
    }
    r := Some([]);
    for i := 0 to |job.items|
      invariant r.Some? && r.value == seq(i, k requires 0 <= k < i => job.fn(job.items[k], k))
    {
      assert state.results[i] == Some(job.fn(job.items[i], i));
      r := Some(r.value + [state.results[i].value]);
    }
  }
}
