/** One outbox job under leased claims and late settlements (durableQueue.ts, outboxProcessing.ts). */
module OutboxJob {
  import opened Common

  const MINUTE := 60_000
  const LEASE := 10 * MINUTE
  const DEFAULT_RETRY := 5 * MINUTE
  const MAX_CLAIMS := 5

  datatype Status = Pending | Processing | Completed | Retry | Dead

  datatype Job = Job(status: Status, attemptCount: nat, nextAttemptAt: int, lockedAt: Option<int>)

  // How the worker's attempt at the job ended. deferTo is the retryAt a policy deferral carries.
  datatype Outcome = Ok | Failed(fatal: bool, deferTo: Option<int>)

  predicate Claimable(j: Job, now: int) {
    || (j.status in {Pending, Retry} && j.nextAttemptAt <= now)
    || (j.status == Processing && j.lockedAt.Some? && j.lockedAt.value < now - LEASE)
  }

  function Claimed(j: Job, now: int): Job {
    if Claimable(j, now) then Job(Processing, j.attemptCount + 1, j.nextAttemptAt, Some(now)) else j
  }

  function Settled(j: Job, status: Status, retryAt: Option<int>, now: int): Job {
    Job(status, j.attemptCount,
        if status != Retry then j.nextAttemptAt else if retryAt.Some? then retryAt.value else now + DEFAULT_RETRY,
        None)
  }

  function Pow2(n: nat): (r: nat)
    ensures r >= 1
  {
    if n == 0 then 1 else 2 * Pow2(n - 1)
  }

  // What the processor settles the n-th claim with.
  function Verdict(n: nat, o: Outcome): Status {
    match o
    case Ok => Completed
    case Failed(fatal, _) => if n >= MAX_CLAIMS || fatal then Dead else Retry
  }

  function RetryAt(n: nat, o: Outcome, now: int): Option<int> {
    match o
    case Ok => None
    case Failed(_, deferTo) => if deferTo.Some? then deferTo else Some(now + Min(60, Pow2(n)) * MINUTE)
  }

  // ----- what becomes of a claim and of an outcome, told without the functions above

  // Waiting and due, or taken more than ten minutes ago.
  predicate IsDue(j: Job, now: int) {
    match j.status
    case Pending => j.nextAttemptAt <= now
    case Retry => j.nextAttemptAt <= now
    case Processing => j.lockedAt.Some? && now - j.lockedAt.value > 600_000
    case Completed => false
    case Dead => false
  }

  // Failed beyond repair, or for the fifth time.
  predicate GivesUp(o: Outcome, n: nat) {
    o.Failed? && (o.fatal || n >= 5)
  }

  // When a failed job is tried again: when the policy says, or 2, 4, 8 or 16 minutes later.
  function RetryTime(o: Outcome, n: nat, now: int): int
    requires o.Failed? && 1 <= n <= 4
  {
    match o.deferTo
    case Some(t) => t
    case None => now + [2, 4, 8, 16][n - 1] * 60_000
  }

  lemma DueExactly(j: Job, now: int)
    ensures Claimable(j, now) <==> IsDue(j, now)
    ensures Claimed(j, now) == if IsDue(j, now) then Job(Processing, j.attemptCount + 1, j.nextAttemptAt, Some(now)) else j
  {
  }

  // The n-th claim's settlement by its outcome.
  lemma SettledExactly(j: Job, n: nat, o: Outcome, now: int)
    requires n >= 1
    ensures var t := Settled(j, Verdict(n, o), RetryAt(n, o, now), now);
      && (t.status == Completed <==> o.Ok?)
      && (t.status == Dead <==> GivesUp(o, n))
      && (t.status == Retry <==> o.Failed? && !GivesUp(o, n))
      && t.attemptCount == j.attemptCount && t.lockedAt == None
      && t.nextAttemptAt == (if o.Failed? && !GivesUp(o, n) then RetryTime(o, n, now) else j.nextAttemptAt)
  {
    PowersOfTwo();
  }

  lemma PowersOfTwo()
    ensures Pow2(1) == 2 && Pow2(2) == 4 && Pow2(3) == 8 && Pow2(4) == 16
  {
    assert Pow2(2) == 2 * Pow2(1);
    assert Pow2(3) == 2 * Pow2(2);
    assert Pow2(4) == 2 * Pow2(3);
  }

  predicate Final(j: Job) {
    j.status in {Completed, Dead}
  }

  // ----- runs of claim attempts and settlements by any number of workers

  datatype Event = Claim(at: int) | Settle(at: int, n: nat, outcome: Outcome)

  // claims[k] is the instant of claim k + 1 and whether the row was settled before the next claim.
  datatype ClaimRecord = ClaimRecord(at: int, settled: bool)

  // answered holds the numbers of the claims whose worker has settled.
  datatype History = History(job: Job, claims: seq<ClaimRecord>, answered: set<nat>, now: int)

  // Time does not run backwards; a worker settles a claim it made, once.
  predicate Possible(s: History, e: Event) {
    && e.at >= s.now
    && (e.Settle? ==> 1 <= e.n <= |s.claims| && e.n !in s.answered)
  }

  function Next(s: History, e: Event): History {
    match e
    case Claim(at) =>
      if Claimable(s.job, at)
      then s.(job := Claimed(s.job, at), claims := s.claims + [ClaimRecord(at, false)], now := at)
      else s.(now := at)
    case Settle(at, c, o) =>
      var n := |s.claims|;
      History(Settled(s.job, Verdict(c, o), RetryAt(c, o, at), at),
              if n == 0 then [] else s.claims[n - 1 := s.claims[n - 1].(settled := true)],
              s.answered + {c}, at)
  }

  predicate PossibleRun(s: History, events: seq<Event>)
    decreases |events|
  {
    events == [] || (Possible(s, events[0]) && PossibleRun(Next(s, events[0]), events[1..]))
  }

  function Run(s: History, events: seq<Event>): History
    decreases |events|
  {
    if events == [] then s else Run(Next(s, events[0]), events[1..])
  }

  function Enqueued(now: int, due: int): History {
    History(Job(Pending, 0, due, None), [], {}, now)
  }

  // attemptCount counts the claims, a row is Processing exactly while its last claim is unsettled, and
  // two claims with no settlement between them are more than a lease apart.
  ghost predicate Inv(s: History) {
    var n := |s.claims|;
    && s.job.attemptCount == n
    && (forall k :: 0 <= k < n ==> s.claims[k].at <= s.now)
    && (forall k :: 0 <= k < n - 1 ==> s.claims[k].at <= s.claims[k + 1].at)
    && (s.job.status == Processing <==> n > 0 && !s.claims[n - 1].settled)
    && (s.job.status == Processing ==> s.job.lockedAt == Some(s.claims[n - 1].at))
    && (forall k :: 0 <= k < n - 1 ==> s.claims[k].settled || s.claims[k + 1].at > s.claims[k].at + LEASE)
    && (forall c :: c in s.answered ==> 1 <= c <= n)
  }

  lemma ClaimKeepsInv(s: History, at: int)
    requires Inv(s) && at >= s.now && Claimable(s.job, at)
    ensures Inv(Next(s, Claim(at)))
  {
    var t, n := Next(s, Claim(at)), |s.claims|;
    assert t.claims[n] == ClaimRecord(at, false);
    assert forall k :: 0 <= k < n ==> t.claims[k] == s.claims[k];
    forall k | 0 <= k < n ensures t.claims[k].settled || t.claims[k + 1].at > t.claims[k].at + LEASE {
      assert k == n - 1 || t.claims[k + 1] == s.claims[k + 1];
    }
  }

  lemma SettleKeepsInv(s: History, e: Event)
    requires Inv(s) && Possible(s, e) && e.Settle?
    ensures Inv(Next(s, e))
  {
    var t, n := Next(s, e), |s.claims|;
    assert forall k :: 0 <= k < n ==> t.claims[k].at == s.claims[k].at;
    assert forall k :: 0 <= k < n - 1 ==> t.claims[k] == s.claims[k];
  }

  lemma NextKeepsInv(s: History, e: Event)
    requires Inv(s) && Possible(s, e)
    ensures Inv(Next(s, e))
  {
    if e.Settle? {
      SettleKeepsInv(s, e);
    } else if Claimable(s.job, e.at) {
      ClaimKeepsInv(s, e.at);
    }
  }

  lemma {:induction false} ClaimsAreSpaced(s: History, events: seq<Event>)
    requires Inv(s) && PossibleRun(s, events)
    ensures Inv(Run(s, events))
    decreases |events|
  {
    if events != [] {
      NextKeepsInv(s, events[0]);
      ClaimsAreSpaced(Next(s, events[0]), events[1..]);
    }
  }

  // A settlement that comes while the lease of its own claim still runs.
  predicate InTime(s: History, e: Event) {
    e.Settle? && 1 <= e.n <= |s.claims| ==> e.at <= s.claims[e.n - 1].at + LEASE
  }

  predicate SettlesInTime(s: History, events: seq<Event>)
    decreases |events|
  {
    events == [] || (InTime(s, events[0]) && SettlesInTime(Next(s, events[0]), events[1..]))
  }

  // With in-time settlements a claim counts as settled exactly when its own worker settled it.
  ghost predicate Disciplined(s: History) {
    && Inv(s)
    && (forall k :: 0 <= k < |s.claims| ==> (s.claims[k].settled <==> k + 1 in s.answered))
    && (Final(s.job) ==> |s.claims| > 0)
  }

  // So an in-time settlement always speaks for the current claim.
  lemma InTimeIsCurrent(s: History, e: Event)
    requires Disciplined(s) && Possible(s, e) && e.Settle? && InTime(s, e)
    ensures e.n == |s.claims| && s.job.status == Processing
  {
    forall k | 0 <= k < |s.claims| - 1 ensures s.claims[k].settled || s.now > s.claims[k].at + LEASE {
      assert s.claims[k + 1].at <= s.now;
    }
    assert s.claims[e.n - 1].settled <==> (e.n - 1) + 1 in s.answered;
  }

  lemma NextDisciplined(s: History, e: Event)
    requires Disciplined(s) && Possible(s, e) && InTime(s, e)
    ensures Disciplined(Next(s, e))
    ensures Final(s.job) ==> Next(s, e).job == s.job && Next(s, e).claims == s.claims
  {
    ClaimsAreSpaced(s, [e]);
    assert [e][1..] == [];
    assert Run(s, [e]) == Next(s, e);
    if e.Settle? {
      InTimeIsCurrent(s, e);
    }
  }

  // COMPLETED and DEAD are final: with in-time settlements nothing changes the row any more.
  lemma {:induction false} FinalStays(s: History, events: seq<Event>)
    requires Disciplined(s) && PossibleRun(s, events) && SettlesInTime(s, events)
    ensures Disciplined(Run(s, events))
    ensures Final(s.job) ==> Run(s, events).job == s.job && Run(s, events).claims == s.claims
    decreases |events|
  {
    if events != [] {
      NextDisciplined(s, events[0]);
      FinalStays(Next(s, events[0]), events[1..]);
    }
  }

  predicate SomeWell(events: seq<Event>) {
    exists k :: 0 <= k < |events| && events[k].Settle? && events[k].outcome.Ok?
  }

  predicate SomeGaveUp(events: seq<Event>) {
    exists k :: 0 <= k < |events| && events[k].Settle? && GivesUp(events[k].outcome, events[k].n)
  }

  lemma SomeMore(e: Event, rest: seq<Event>)
    ensures SomeWell([e] + rest) <==> (e.Settle? && e.outcome.Ok?) || SomeWell(rest)
    ensures SomeGaveUp([e] + rest) <==> (e.Settle? && GivesUp(e.outcome, e.n)) || SomeGaveUp(rest)
  {
    var all := [e] + rest;
    assert all[0] == e && forall k :: 0 <= k < |rest| ==> all[k + 1] == rest[k];
  }

  // With settlements in time a job ends COMPLETED exactly if some worker did it well, and DEAD exactly if
  // one failed beyond repair or on the fifth claim.
  lemma {:induction false} EndsAsItWent(s: History, events: seq<Event>)
    requires Disciplined(s) && PossibleRun(s, events) && SettlesInTime(s, events)
    ensures Run(s, events).job.status == Completed <==> s.job.status == Completed || SomeWell(events)
    ensures Run(s, events).job.status == Dead <==> s.job.status == Dead || SomeGaveUp(events)
    decreases |events|
  {
    if events != [] {
      var e := events[0];
      NextDisciplined(s, e);
      EndsAsItWent(Next(s, e), events[1..]);
      SomeMore(e, events[1..]);
      assert events == [e] + events[1..];
      if e.Settle? {
        InTimeIsCurrent(s, e);
        SettledExactly(s.job, e.n, e.outcome, e.at);
      }
    }
  }

  lemma EveryJobEndsAsItWent(now: int, due: int, events: seq<Event>)
    requires PossibleRun(Enqueued(now, due), events) && SettlesInTime(Enqueued(now, due), events)
    ensures var end := Run(Enqueued(now, due), events).job.status;
      (end == Completed <==> SomeWell(events)) && (end == Dead <==> SomeGaveUp(events))
  {
    EndsAsItWent(Enqueued(now, due), events);
  }

  // No worker vanishes: a row is not claimed again while its last claim is unsettled.
  predicate NoAbandonedClaim(s: History, events: seq<Event>)
    decreases |events|
  {
    events == [] ||
    (&& (events[0].Claim? && Claimable(s.job, events[0].at) ==> s.job.status != Processing)
     && NoAbandonedClaim(Next(s, events[0]), events[1..]))
  }

  // After five claims the row is either being worked on for the fifth time or final.
  predicate WithinBudget(s: History) {
    && |s.claims| <= MAX_CLAIMS
    && (|s.claims| == MAX_CLAIMS ==> s.job.status == Processing || Final(s.job))
  }

  // If every claim is settled within its lease, a job is claimed at most five times.
  lemma {:induction false} AtMostFiveClaims(s: History, events: seq<Event>)
    requires Disciplined(s) && WithinBudget(s)
    requires PossibleRun(s, events) && SettlesInTime(s, events) && NoAbandonedClaim(s, events)
    ensures WithinBudget(Run(s, events))
    decreases |events|
  {
    if events != [] {
      NextDisciplined(s, events[0]);
      if events[0].Settle? {
        InTimeIsCurrent(s, events[0]);
      }
      AtMostFiveClaims(Next(s, events[0]), events[1..]);
    }
  }

  // A run cut after n events.
  lemma {:induction false} CutAt(s: History, events: seq<Event>, n: nat)
    requires n <= |events| && PossibleRun(s, events) && SettlesInTime(s, events)
    ensures PossibleRun(s, events[..n]) && SettlesInTime(s, events[..n])
    ensures var mid := Run(s, events[..n]);
            PossibleRun(mid, events[n..]) && SettlesInTime(mid, events[n..]) && Run(s, events) == Run(mid, events[n..])
    decreases |events|
  {
    if n == 0 {
      assert events[0..] == events && events[..0] == [];
    } else {
      CutAt(Next(s, events[0]), events[1..], n - 1);
      assert events[..n][1..] == events[1..][..n - 1] && events[1..][n - 1..] == events[n..];
    }
  }

  // A job from enqueue, with settlements in time: once final at any moment of the run, it is the same at the end.
  lemma FinalFromThen(now: int, due: int, events: seq<Event>, n: nat)
    requires PossibleRun(Enqueued(now, due), events) && SettlesInTime(Enqueued(now, due), events) && n <= |events|
    ensures Final(Run(Enqueued(now, due), events[..n]).job) ==>
              Run(Enqueued(now, due), events).job == Run(Enqueued(now, due), events[..n]).job
  {
    CutAt(Enqueued(now, due), events, n);
    FinalStays(Enqueued(now, due), events[..n]);
    FinalStays(Run(Enqueued(now, due), events[..n]), events[n..]);
  }

  lemma JobLifetime(now: int, due: int, events: seq<Event>)
    requires PossibleRun(Enqueued(now, due), events)
    ensures var s := Run(Enqueued(now, due), events);
      && s.job.attemptCount == |s.claims|
      && (forall k :: 0 <= k < |s.claims| - 1 ==> s.claims[k].settled || s.claims[k + 1].at > s.claims[k].at + LEASE)
      && (SettlesInTime(Enqueued(now, due), events) ==>
            forall n: nat :: n <= |events| && Final(Run(Enqueued(now, due), events[..n]).job) ==>
              s.job == Run(Enqueued(now, due), events[..n]).job)
      && (SettlesInTime(Enqueued(now, due), events) && NoAbandonedClaim(Enqueued(now, due), events) ==> |s.claims| <= MAX_CLAIMS)
  {
    ClaimsAreSpaced(Enqueued(now, due), events);
    if SettlesInTime(Enqueued(now, due), events) {
      forall n: nat | n <= |events| && Final(Run(Enqueued(now, due), events[..n]).job)
        ensures Run(Enqueued(now, due), events).job == Run(Enqueued(now, due), events[..n]).job
      {
        FinalFromThen(now, due, events, n);
      }
      if NoAbandonedClaim(Enqueued(now, due), events) {
        AtMostFiveClaims(Enqueued(now, due), events);
      }
    }
  }

  // A settlement whose verdict is the status a final job already has, or any claim, leaves it as it is.
  predicate Repeats(job: Job, e: Event) {
    e.Claim? || Verdict(e.n, e.outcome) == job.status
  }

  // Without any assumption on leases, what changes a final job is exactly a settlement with another
  // verdict: RETRY reopens it, and a late COMPLETED or DEAD replaces the other.
  lemma FinalChangesExactly(s: History, e: Event)
    requires Final(s.job)
    ensures Next(s, e).job.status == s.job.status <==> Repeats(s.job, e)
    ensures s.job.lockedAt == None ==> (Next(s, e).job == s.job <==> Repeats(s.job, e))
    ensures !Final(Next(s, e).job) <==> e.Settle? && e.outcome.Failed? && !e.outcome.fatal && e.n < MAX_CLAIMS
  {
  }

  predicate StaysAsItIs(s: History, events: seq<Event>, job: Job)
    decreases |events|
  {
    s.job == job && (events == [] || StaysAsItIs(Next(s, events[0]), events[1..], job))
  }

  // Over every run a settled final job stays as it is all along exactly if every settlement repeats it.
  lemma {:induction false} FinalStaysExactly(s: History, events: seq<Event>)
    requires Final(s.job) && s.job.lockedAt == None
    ensures StaysAsItIs(s, events, s.job) <==> forall n :: 0 <= n < |events| ==> Repeats(s.job, events[n])
    decreases |events|
  {
    if events != [] {
      FinalChangesExactly(s, events[0]);
      if Repeats(s.job, events[0]) {
        FinalStaysExactly(Next(s, events[0]), events[1..]);
        assert forall n :: 1 <= n < |events| ==> events[n] == events[1..][n - 1];
      }
    }
  }

  // settleOutbox does not ask who holds the lease: a worker whose first claim expired answers after
  // the second claim declared the job dead, and the dead job is claimed again.
  lemma LateSettlementRevivesTheDead() returns (events: seq<Event>)
    ensures PossibleRun(Enqueued(0, 0), events)
    ensures |events| == 5 && Final(Run(Enqueued(0, 0), events[..3]).job)
    ensures Run(Enqueued(0, 0), events).job == Job(Processing, 3, 20 * MINUTE, Some(20 * MINUTE))
  {
    events := [Claim(0), Claim(11 * MINUTE), Settle(12 * MINUTE, 2, Failed(true, None)),
               Settle(13 * MINUTE, 1, Failed(false, Some(20 * MINUTE))), Claim(20 * MINUTE)];
    var s0 := Enqueued(0, 0);
    var s1, tail1 := Next(s0, events[0]), events[1..];
    var s2, tail2 := Next(s1, events[1]), tail1[1..];
    var s3, tail3 := Next(s2, events[2]), tail2[1..];
    var s4, tail4 := Next(s3, events[3]), tail3[1..];
    var s5 := Next(s4, events[4]);
    assert tail4 == [events[4]] && tail4[1..] == [];
    assert Run(s4, tail4) == Run(s5, []);
    assert s3.job.status == Dead;
    assert s4.job == Job(Retry, 2, 20 * MINUTE, None);
    assert PossibleRun(s3, tail3) && Run(s3, tail3) == s5;
    assert PossibleRun(s2, tail2) && Run(s2, tail2) == s5;
    assert PossibleRun(s1, tail1) && Run(s1, tail1) == s5;
    var dead := events[..3];
    assert dead[1..][1..][1..] == [] && dead[1..][0] == events[1] && dead[1..][1..][0] == events[2];
    assert Run(s2, dead[1..][1..]) == Run(s3, []);
    assert Run(s1, dead[1..]) == Run(s2, dead[1..][1..]);
  }
}

/** The table of outbox jobs and the batch processor (durableQueue.ts, outboxProcessing.ts). */
module OutboxTable {
  import opened Common
  import opened Sorting
  import opened OutboxJob

  // Rows in creation order. payload stands for everything fixed at enqueue time.
  datatype Row = Row(key: string, payload: string, job: Job)

  predicate DistinctKeys(rows: seq<Row>) {
    forall i, j :: 0 <= i < j < |rows| ==> rows[i].key != rows[j].key
  }

  function Find(rows: seq<Row>, key: string): Option<Row> {
    if rows == [] then None
    else if rows[0].key == key then Some(rows[0])
    else Find(rows[1..], key)
  }

  lemma {:induction false} FindIs(rows: seq<Row>, key: string)
    ensures match Find(rows, key)
            case None => forall i :: 0 <= i < |rows| ==> rows[i].key != key
            case Some(r) => r.key == key && r in rows
  {
    if rows != [] {
      FindIs(rows[1..], key);
      if rows[0].key != key && Find(rows[1..], key) == None {
        forall i | 0 <= i < |rows| ensures rows[i].key != key {
          assert i > 0 ==> rows[i] == rows[1..][i - 1];
        }
      }
    }
  }

  function Due(rows: seq<Row>, now: int): seq<Row> {
    if rows == [] then []
    else (if Claimable(rows[0].job, now) then [rows[0]] else []) + Due(rows[1..], now)
  }

  lemma {:induction false} DueIs(rows: seq<Row>, now: int)
    requires DistinctKeys(rows)
    ensures forall r :: r in Due(rows, now) <==> r in rows && Claimable(r.job, now)
    ensures DistinctKeys(Due(rows, now))
  {
    if rows != [] {
      assert rows == [rows[0]] + rows[1..];
      DueIs(rows[1..], now);
      forall r | r in Due(rows[1..], now) ensures r.key != rows[0].key {
        var i :| 0 <= i < |rows[1..]| && rows[1..][i] == r;
        assert rows[i + 1] == r;
      }
    }
  }

  function ByDueTime(): Row -> int {
    (r: Row) => r.job.nextAttemptAt
  }

  // ORDER BY next_attempt_at, created_at LIMIT limit; rows are in creation order and the sort is stable.
  function Picked(rows: seq<Row>, now: int, limit: nat): seq<Row> {
    var due := SortBy(Due(rows, now), ByDueTime());
    due[..Min(limit, |due|)]
  }

  function Keys(rows: seq<Row>): set<string> {
    set r | r in rows :: r.key
  }

  lemma {:induction false} InsertDistinct(x: Row, t: seq<Row>)
    requires DistinctKeys(t) && forall r :: r in t ==> r.key != x.key
    ensures DistinctKeys(Insert(x, t, ByDueTime()))
    ensures forall r :: r in Insert(x, t, ByDueTime()) <==> r == x || r in t
  {
    if t == [] || ByDueTime()(x) <= ByDueTime()(t[0]) {
      ConsDistinct(x, t);
    } else {
      var rest := Insert(x, t[1..], ByDueTime());
      TailDistinct(t);
      InsertDistinct(x, t[1..]);
      ConsDistinct(t[0], rest);
      assert t == [t[0]] + t[1..];
    }
  }

  lemma ConsDistinct(x: Row, t: seq<Row>)
    requires DistinctKeys(t) && forall r :: r in t ==> r.key != x.key
    ensures DistinctKeys([x] + t)
  {
  }

  lemma TailDistinct(s: seq<Row>)
    requires DistinctKeys(s) && s != []
    ensures DistinctKeys(s[1..]) && forall r :: r in s[1..] ==> r.key != s[0].key
  {
    assert forall i :: 0 <= i < |s| - 1 ==> s[1..][i] == s[i + 1];
  }

  lemma {:induction false} SortDistinct(s: seq<Row>)
    requires DistinctKeys(s)
    ensures DistinctKeys(SortBy(s, ByDueTime()))
    ensures forall r :: r in SortBy(s, ByDueTime()) <==> r in s
  {
    if s != [] {
      TailDistinct(s);
      SortDistinct(s[1..]);
      InsertDistinct(s[0], SortBy(s[1..], ByDueTime()));
      assert s == [s[0]] + s[1..];
    }
  }

  function HowMany(rows: seq<Row>, p: Row -> bool): nat {
    if rows == [] then 0 else HowMany(rows[..|rows| - 1], p) + if p(rows[|rows| - 1]) then 1 else 0
  }

  lemma {:induction false} HowManyCons(r: Row, rows: seq<Row>, p: Row -> bool)
    ensures HowMany([r] + rows, p) == (if p(r) then 1 else 0) + HowMany(rows, p)
  {
    if rows == [] {
      assert [r] + rows == [r] && [r][..0] == [];
    } else {
      HowManyCons(r, rows[..|rows| - 1], p);
      assert ([r] + rows)[..|[r] + rows| - 1] == [r] + rows[..|rows| - 1];
    }
  }

  function DueAt(now: int): Row -> bool {
    (r: Row) => IsDue(r.job, now)
  }

  lemma {:induction false} DueCounts(rows: seq<Row>, now: int)
    ensures |Due(rows, now)| == HowMany(rows, DueAt(now))
  {
    if rows != [] {
      DueCounts(rows[1..], now);
      HowManyCons(rows[0], rows[1..], DueAt(now));
      assert rows == [rows[0]] + rows[1..];
      DueExactly(rows[0].job, now);
    }
  }

  // A claim takes due rows only, as many as the limit allows, the longest due first.
  lemma PickedIs(rows: seq<Row>, now: int, limit: nat)
    requires DistinctKeys(rows)
    ensures var picked := Picked(rows, now, limit);
      && DistinctKeys(picked)
      && |picked| == Min(limit, |Due(rows, now)|) == Min(limit, HowMany(rows, DueAt(now)))
      && (forall r :: r in picked ==> r in rows && Claimable(r.job, now) && IsDue(r.job, now))
      && (forall r, p :: p in picked && r in rows && IsDue(r.job, now) && r !in picked ==> p.job.nextAttemptAt <= r.job.nextAttemptAt)
  {
    DueCounts(rows, now);
    var due := Due(rows, now);
    var sorted := SortBy(due, ByDueTime());
    var picked := Picked(rows, now, limit);
    DueIs(rows, now);
    SortSorted(due, ByDueTime());
    SortDistinct(due);
    forall r | r in picked ensures r in rows && Claimable(r.job, now) && IsDue(r.job, now) {
      assert r in sorted;
      DueExactly(r.job, now);
    }
    forall r, p | p in picked && r in rows && IsDue(r.job, now) && r !in picked
      ensures p.job.nextAttemptAt <= r.job.nextAttemptAt
    {
      TakenFirst(sorted, |picked|, p, r);
    }
  }

  lemma TakenFirst(sorted: seq<Row>, n: nat, p: Row, r: Row)
    requires SortedBy(sorted, ByDueTime()) && n <= |sorted|
    requires p in sorted[..n] && r in sorted && r !in sorted[..n]
    ensures p.job.nextAttemptAt <= r.job.nextAttemptAt
  {
    var i :| 0 <= i < |sorted| && sorted[i] == r;
    var k :| 0 <= k < n && sorted[..n][k] == p;
    assert forall j :: 0 <= j < n ==> sorted[j] in sorted[..n];
    assert ByDueTime()(sorted[k]) <= ByDueTime()(sorted[i]);
  }

  // A row whose key was picked is the row that was picked.
  lemma PickedRow(rows: seq<Row>, picked: seq<Row>, r: Row)
    requires DistinctKeys(rows) && r in rows && r.key in Keys(picked) && forall p :: p in picked ==> p in rows
    ensures r in picked
  {
    var p :| p in picked && p.key == r.key;
    assert p == r;
  }

  // The k-th claim is of one row, and not of one claimed before.
  lemma SettledOne(rows: seq<Row>, picked: seq<Row>, k: nat)
    requires DistinctKeys(rows) && DistinctKeys(picked) && k < |picked|
    requires forall r :: r in picked ==> r in rows
    ensures picked[k].key !in Keys(picked[..k]) && picked[k].key in Keys(picked)
    ensures Keys(picked[..k + 1]) == Keys(picked[..k]) + {picked[k].key}
    ensures forall i :: 0 <= i < |rows| && rows[i].key == picked[k].key ==> rows[i] == picked[k]
  {
    assert picked[..k + 1] == picked[..k] + [picked[k]];
    assert picked[k] in rows;
  }

  // What the processor reports about a batch.
  datatype Summary = Summary(claimed: nat, completed: nat, retried: nat, dead: nat)

  function Started(r: Row, now: int): Row {
    r.(job := Claimed(r.job, now))
  }

  // A row after its claim and the settlement of that claim, which comes when its work is done.
  function Processed(r: Row, o: Outcome, claimedAt: int, settledAt: int): Row {
    var n := r.job.attemptCount + 1;
    r.(job := Settled(Claimed(r.job, claimedAt), Verdict(n, o), RetryAt(n, o, settledAt), settledAt))
  }

  // The same told by the outcome: what the row says then.
  predicate IsSettled(was: Row, r: Row, o: Outcome, settledAt: int) {
    var n := was.job.attemptCount + 1;
    && r.key == was.key && r.payload == was.payload && r.job.attemptCount == n && r.job.lockedAt == None
    && (r.job.status == Completed <==> o.Ok?)
    && (r.job.status == Dead <==> GivesUp(o, n))
    && (r.job.status == Retry <==> o.Failed? && !GivesUp(o, n))
    && r.job.nextAttemptAt == (if o.Failed? && !GivesUp(o, n) then RetryTime(o, n, settledAt) else was.job.nextAttemptAt)
  }

  lemma ProcessedExactly(r: Row, o: Outcome, claimedAt: int, settledAt: int)
    requires IsDue(r.job, claimedAt)
    ensures IsSettled(r, Processed(r, o, claimedAt, settledAt), o, settledAt)
  {
    DueExactly(r.job, claimedAt);
    SettledExactly(Claimed(r.job, claimedAt), r.job.attemptCount + 1, o, settledAt);
  }

  // Which of the picked rows went how.
  function Well(outcome: string -> Outcome): Row -> bool {
    (r: Row) => outcome(r.key).Ok?
  }

  function Lost(outcome: string -> Outcome): Row -> bool {
    (r: Row) => GivesUp(outcome(r.key), r.job.attemptCount + 1)
  }

  function Again(outcome: string -> Outcome): Row -> bool {
    (r: Row) => outcome(r.key).Failed? && !GivesUp(outcome(r.key), r.job.attemptCount + 1)
  }

  predicate Reports(report: Summary, picked: seq<Row>, outcome: string -> Outcome) {
    && report.claimed == |picked|
    && report.completed == HowMany(picked, Well(outcome))
    && report.dead == HowMany(picked, Lost(outcome))
    && report.retried == HowMany(picked, Again(outcome))
  }

  // The report with one more settlement in it.
  function Noted(report: Summary, status: Status): Summary {
    match status
    case Completed => report.(claimed := report.claimed + 1, completed := report.completed + 1)
    case Dead => report.(claimed := report.claimed + 1, dead := report.dead + 1)
    case _ => report.(claimed := report.claimed + 1, retried := report.retried + 1)
  }

  lemma ReportStep(report: Summary, picked: seq<Row>, k: nat, outcome: string -> Outcome)
    requires k < |picked| && Reports(report, picked[..k], outcome) && report.claimed == report.completed + report.retried + report.dead
    ensures var next := Noted(report, Verdict(picked[k].job.attemptCount + 1, outcome(picked[k].key)));
      Reports(next, picked[..k + 1], outcome) && next.claimed == next.completed + next.retried + next.dead
  {
    assert picked[..k + 1][..k] == picked[..k];
    SettledExactly(picked[k].job, picked[k].job.attemptCount + 1, outcome(picked[k].key), 0);
  }

  // The table after the first k settlements of a batch.
  ghost predicate SettledUpTo(before: seq<Row>, picked: seq<Row>, k: nat, rows: seq<Row>, outcome: string -> Outcome, now: int, doneAt: string -> int)
    requires k <= |picked|
  {
    && |rows| == |before|
    && forall i :: 0 <= i < |before| ==>
         rows[i] == (if before[i].key in Keys(picked[..k]) then Processed(before[i], outcome(before[i].key), now, doneAt(before[i].key))
                     else if before[i].key in Keys(picked) then Started(before[i], now) else before[i])
  }

  lemma SettledStep(before: seq<Row>, picked: seq<Row>, k: nat, rows: seq<Row>, after: seq<Row>, outcome: string -> Outcome, now: int, doneAt: string -> int)
    requires DistinctKeys(before) && DistinctKeys(picked) && k < |picked| && forall r :: r in picked ==> r in before
    requires SettledUpTo(before, picked, k, rows, outcome, now, doneAt) && |after| == |rows|
    requires var n, o, t := picked[k].job.attemptCount + 1, outcome(picked[k].key), doneAt(picked[k].key);
             forall i :: 0 <= i < |rows| ==>
               after[i] == (if rows[i].key == picked[k].key then rows[i].(job := Settled(rows[i].job, Verdict(n, o), RetryAt(n, o, t), t)) else rows[i])
    ensures SettledUpTo(before, picked, k + 1, after, outcome, now, doneAt)
  {
    SettledOne(before, picked, k);
  }

  class Outbox {
    var rows: seq<Row>

    constructor ()
      ensures rows == []
    {
      rows := [];
    }

    // ON CONFLICT (idempotency_key) DO NOTHING: a duplicate leaves the existing row untouched.
    method Enqueue(key: string, payload: string, now: int, dueAt: Option<int>) returns (duplicate: bool)
      requires DistinctKeys(rows)
      modifies this
      ensures DistinctKeys(rows)
      ensures duplicate == Find(old(rows), key).Some?
      ensures duplicate ==> rows == old(rows)
      ensures !duplicate ==> rows == old(rows) + [Row(key, payload, Job(Pending, 0, if dueAt.Some? then dueAt.value else now, None))]
    {
      FindIs(rows, key);
      duplicate := Find(rows, key).Some?;
      if !duplicate {
        rows := rows + [Row(key, payload, Job(Pending, 0, if dueAt.Some? then dueAt.value else now, None))];
      }
    }

    // Rewrites the rows whose key is listed; the others keep their place and their contents.
    method ClaimBatch(limit: nat, now: int) returns (claimed: seq<Row>)
      requires DistinctKeys(rows)
      modifies this
      ensures DistinctKeys(rows) && |rows| == |old(rows)|
      ensures |claimed| == |Picked(old(rows), now, limit)|
      ensures forall k :: 0 <= k < |claimed| ==>
                var p := Picked(old(rows), now, limit)[k];
                claimed[k] == Started(p, now) && claimed[k].job.attemptCount == p.job.attemptCount + 1
      ensures DistinctKeys(claimed)
      ensures forall i :: 0 <= i < |rows| ==>
                rows[i] == (if old(rows)[i].key in Keys(Picked(old(rows), now, limit))
                            then Started(old(rows)[i], now) else old(rows)[i])
    {
      PickedIs(rows, now, limit);
      var picked := Picked(rows, now, limit);
      var keys := Keys(picked);
      claimed := seq(|picked|, k requires 0 <= k < |picked| => Started(picked[k], now));
      var before := rows;
      for i := 0 to |before|
        invariant |rows| == |before|
        invariant forall j :: 0 <= j < |before| ==>
                    rows[j] == (if j < i && before[j].key in keys then Started(before[j], now) else before[j])
      {
        if before[i].key in keys {
          rows := rows[i := Started(before[i], now)];
        }
      }
    }

    // No one checks who holds the lease; an unknown key settles nothing.
    method SettleJob(key: string, status: Status, retryAt: Option<int>, now: int)
      requires DistinctKeys(rows)
      modifies this
      ensures DistinctKeys(rows) && |rows| == |old(rows)|
      ensures forall i :: 0 <= i < |rows| ==>
                rows[i] == (if old(rows)[i].key == key then old(rows)[i].(job := Settled(old(rows)[i].job, status, retryAt, now)) else old(rows)[i])
    {
      var before := rows;
      for i := 0 to |before|
        invariant |rows| == |before|
        invariant forall j :: 0 <= j < |before| ==>
                    rows[j] == (if j < i && before[j].key == key then before[j].(job := Settled(before[j].job, status, retryAt, now)) else before[j])
      {
        if before[i].key == key {
          rows := rows[i := before[i].(job := Settled(before[i].job, status, retryAt, now))];
        }
      }
    }

    // The loop over a claimed batch: before is the table ahead of the claim, picked the rows it took.
    method SettleAll(claimed: seq<Row>, now: int, outcome: string -> Outcome, doneAt: string -> int, ghost before: seq<Row>, ghost picked: seq<Row>)
      returns (report: Summary)
      requires DistinctKeys(before) && DistinctKeys(picked) && DistinctKeys(rows)
      requires forall r :: r in picked ==> r in before
      requires |claimed| == |picked| && |rows| == |before|
      requires forall k :: 0 <= k < |picked| ==> claimed[k].key == picked[k].key && claimed[k].job.attemptCount == picked[k].job.attemptCount + 1
      requires forall i :: 0 <= i < |rows| ==> rows[i] == (if before[i].key in Keys(picked) then Started(before[i], now) else before[i])
      modifies this
      ensures DistinctKeys(rows) && SettledUpTo(before, picked, |picked|, rows, outcome, now, doneAt)
      ensures Reports(report, picked, outcome) && report.claimed == report.completed + report.retried + report.dead
    {
      report := Summary(0, 0, 0, 0);
      for k := 0 to |claimed|
        invariant DistinctKeys(rows) && SettledUpTo(before, picked, k, rows, outcome, now, doneAt)
        invariant Reports(report, picked[..k], outcome) && report.claimed == report.completed + report.retried + report.dead
      {
        var n, o, t := claimed[k].job.attemptCount, outcome(claimed[k].key), doneAt(claimed[k].key);
        ghost var was := rows;
        ReportStep(report, picked, k, outcome);
        SettleJob(claimed[k].key, Verdict(n, o), RetryAt(n, o, t), t);
        SettledStep(before, picked, k, was, rows, outcome, now, doneAt);
        report := Noted(report, Verdict(n, o));
      }
      assert picked[..|claimed|] == picked;
    }

    // Every claimed job is settled once, when its own work is done, as its outcome says, every other row is
    // untouched, and the report says how many went how.
    method ProcessBatch(limit: nat, now: int, outcome: string -> Outcome, doneAt: string -> int) returns (report: Summary)
      requires DistinctKeys(rows)
      modifies this
      ensures DistinctKeys(rows) && |rows| == |old(rows)|
      ensures report.claimed == Min(limit, HowMany(old(rows), DueAt(now)))
      ensures Reports(report, Picked(old(rows), now, limit), outcome)
      ensures report.claimed == report.completed + report.retried + report.dead
      ensures forall i :: 0 <= i < |rows| && old(rows)[i].key in Keys(Picked(old(rows), now, limit)) ==>
                IsSettled(old(rows)[i], rows[i], outcome(old(rows)[i].key), doneAt(old(rows)[i].key))
      ensures forall i :: 0 <= i < |rows| ==>
                rows[i] == (if old(rows)[i].key in Keys(Picked(old(rows), now, limit))
                            then Processed(old(rows)[i], outcome(old(rows)[i].key), now, doneAt(old(rows)[i].key)) else old(rows)[i])
    {
      PickedIs(rows, now, limit);
      ghost var before, picked := rows, Picked(rows, now, limit);
      var claimed := ClaimBatch(limit, now);
      report := SettleAll(claimed, now, outcome, doneAt, before, picked);
      assert picked[..|picked|] == picked;
      forall i | 0 <= i < |rows| && before[i].key in Keys(picked)
        ensures IsSettled(before[i], rows[i], outcome(before[i].key), doneAt(before[i].key))
      {
        PickedRow(before, picked, before[i]);
        ProcessedExactly(before[i], outcome(before[i].key), now, doneAt(before[i].key));
      }
    }
  }
}
