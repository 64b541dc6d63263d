/** One lead under the automated cadence and delivery callbacks (cadenceEngine.ts, actions.ts
    deliverOutreachLocked, deliveryUpdates.ts). With the database a save puts new objects in place of all
    stored ones. Placing a conversational call saves, so from then on a tick changes leads that are no longer
    stored; attempts and events go to the lists of the store and are kept. */
module CadenceLead {
  import opened Common
  import opened Sorting
  import opened LeadStates
  import opened DeliveryStatus

  const MINUTE := 60_000

  datatype FailureClass = TRANSIENT | PERMANENT | CONFIGURATION

  // retryCount is stored only by a send the provider refused.
  datatype Attempt = Attempt(channel: Channel, outcome: Outcome, failureClass: Option<FailureClass>,
                             retryAfter: Option<int>, retryCount: Option<nat>, at: int)

  // deliveries holds the instants of the OUTREACH_ATTEMPTED events the engine's own steps raised.
  datatype Lead = Lead(createdAt: int, state: LeadState, offsets: seq<int>, deliveries: seq<int>,
                       attempts: seq<Attempt>, attemptsTotal: int, voicePlaced: nat)

  datatype Send =
    | Accepted
    | Refused(cls: FailureClass, optOut: bool)

  // Everything a tick learns from outside: whether the borrower is on the page, the channel the router
  // settled on and whether it is configured, the gate's answer, what the provider said, and whether a call
  // is conversational.
  datatype Env = Env(engaged: bool, channel: Channel, ready: bool, allowed: bool, voiceBlocked: bool, send: Send, conversational: bool)

  datatype Result =
    | NotEligible | NoPlan | Exhausted | NotExhaustible | NotDue | HeldForFailure | InBackoff
    | HeldForEngagement | HeldForChannel | Blocked | Delivered | SendFailed

  const RETRY_DELAYS_MINUTES: seq<int> := [5, 15, 60]

  // Minutes to wait before retrying, or None to give up.
  function DecideRetry(cls: FailureClass, priorFailedTries: nat): Option<int> {
    if cls != TRANSIENT || priorFailedTries >= |RETRY_DELAYS_MINUTES| then None
    else Some(RETRY_DELAYS_MINUTES[priorFailedTries])
  }

  function Identity(): int -> int {
    x => x
  }

  function SortedOffsets(l: Lead): seq<int> {
    SortBy(l.offsets, Identity())
  }

  function LastFailure(attempts: seq<Attempt>): Option<Attempt> {
    if attempts == [] then None
    else
      var a := attempts[|attempts| - 1];
      if a.outcome == FAILED && a.failureClass.Some? then Some(a) else LastFailure(attempts[..|attempts| - 1])
  }

  // Failed attempts on a channel: what decideRetry counts.
  function FailedOn(attempts: seq<Attempt>, ch: Channel): nat {
    if attempts == [] then 0
    else
      var a := attempts[|attempts| - 1];
      FailedOn(attempts[..|attempts| - 1], ch) + (if a.channel == ch && a.outcome == FAILED then 1 else 0)
  }

  // Sends the provider refused on a channel.
  function RefusedOn(attempts: seq<Attempt>, ch: Channel): nat {
    if attempts == [] then 0
    else
      var a := attempts[|attempts| - 1];
      RefusedOn(attempts[..|attempts| - 1], ch) + (if a.channel == ch && a.retryCount.Some? then 1 else 0)
  }

  predicate Counts(a: Attempt) {
    a.channel != VOICE && a.outcome !in {FAILED, UNDELIVERED}
  }

  // Messages that, as far as is known, reached the borrower's carrier.
  function Reached(attempts: seq<Attempt>): nat {
    if attempts == [] then 0
    else Reached(attempts[..|attempts| - 1]) + (if Counts(attempts[|attempts| - 1]) then 1 else 0)
  }

  function Suppress(state: LeadState): LeadState {
    if state in TERMINAL_STATES then state else SUPPRESSED
  }

  function FirstContact(state: LeadState): LeadState {
    if state == NEW then After(state, OUTREACH_ATTEMPTED) else state
  }

  // What is stored of a lead's change when the lead object is, or is no longer, the stored one.
  function Kept(l: Lead, changed: Lead, held: bool): Lead {
    if held then changed else changed.(attemptsTotal := l.attemptsTotal, state := l.state)
  }

  // deliverOutreach for an automated step. Placing a call is one opaque act: it stores no SMS or
  // email attempt and either counts as a delivery or not.
  function Deliver(b: Backend, l: Lead, now: int, e: Env, held: bool): (Lead, Result) {
    if !e.allowed then (l, Blocked)
    else if e.channel == VOICE then
      if e.voiceBlocked then (l, Blocked)
      else if e.send.Refused? then (l, SendFailed)
      else (Kept(l, l.(attemptsTotal := l.attemptsTotal + 1, voicePlaced := l.voicePlaced + 1,
                       state := FirstContact(l.state), deliveries := l.deliveries + [now]),
                 held && !(b == Database && e.conversational)), Delivered)
    else
      match e.send
      case Refused(cls, optOut) =>
        var prior := FailedOn(l.attempts, e.channel);
        var delay := DecideRetry(cls, prior);
        var retryAfter := if delay.Some? then Some(now + delay.value * MINUTE) else None;
        (Kept(l, l.(attempts := l.attempts + [Attempt(e.channel, FAILED, Some(cls), retryAfter, Some(prior), now)],
                    state := if e.channel == SMS && optOut then Suppress(l.state) else l.state), held), SendFailed)
      case Accepted =>
        (Kept(l, l.(attempts := l.attempts + [Attempt(e.channel, SENT, None, None, None, now)],
                    attemptsTotal := l.attemptsTotal + 1,
                    state := FirstContact(l.state), deliveries := l.deliveries + [now]), held), Delivered)
  }

  // One lead's share of a cadence tick; held says whether the tick still works on the stored lead.
  function Tick(b: Backend, l: Lead, now: int, e: Env, held: bool): (Lead, Result) {
    if l.state !in {NEW, ATTEMPTING_CONTACT} then (l, NotEligible)
    else if l.offsets == [] then (l, NoPlan)
    else if |l.deliveries| >= |l.offsets| then
      if Transition(l.state, MAX_ATTEMPTS_REACHED).Some?
      then (Kept(l, l.(state := Transition(l.state, MAX_ATTEMPTS_REACHED).value), held), Exhausted) else (l, NotExhaustible)
    else if now - l.createdAt < SortedOffsets(l)[|l.deliveries|] * MINUTE then (l, NotDue)
    else
      var last := LastFailure(l.attempts);
      if last.Some? && last.value.failureClass != Some(TRANSIENT) then (l, HeldForFailure)
      else if last.Some? && last.value.retryAfter.Some? && last.value.retryAfter.value > now then (l, InBackoff)
      else if last.Some? && last.value.retryAfter == None then (l, HeldForFailure)
      else if e.engaged then (l, HeldForEngagement)
      else if !e.ready then (l, HeldForChannel)
      else Deliver(b, l, now, e, held)
  }

  // A conversational call was placed, or refused by its provider: either way the store was saved.
  predicate Replaces(b: Backend, l: Lead, now: int, e: Env) {
    b == Database && e.channel == VOICE && e.conversational && Tick(b, l, now, e, true).1 in {Delivered, SendFailed}
  }

  // A provider callback about the i-th attempt.
  function Callback(l: Lead, i: nat, incoming: Outcome, cls: FailureClass, optOut: bool): Lead
    requires i < |l.attempts| && l.attempts[i].channel != VOICE
  {
    var a := l.attempts[i];
    if !ShouldApply(a.outcome, incoming) then l
    else if incoming !in {UNDELIVERED, FAILED} then l.(attempts := l.attempts[i := a.(outcome := incoming)])
    else l.(attempts := l.attempts[i := a.(outcome := incoming, failureClass := Some(cls))],
            attemptsTotal := Max(0, l.attemptsTotal - 1),
            state := if a.channel == SMS && optOut then Suppress(l.state) else l.state)
  }

  datatype Step =
    | TickAt(now: int, env: Env, held: bool)
    | CallbackAt(now: int, i: nat, incoming: Outcome, cls: FailureClass, optOut: bool)
    | EventAt(now: int, event: LeadEvent)

  // Everyone but the engine: an officer or the borrower moves the lead. Only the engine gives up on it.
  function Next(b: Backend, l: Lead, s: Step): Lead {
    match s
    case TickAt(now, env, held) => Tick(b, l, now, env, held).0
    case CallbackAt(_, i, incoming, cls, optOut) =>
      if i < |l.attempts| && l.attempts[i].channel != VOICE then Callback(l, i, incoming, cls, optOut) else l
    case EventAt(_, event) => if event == MAX_ATTEMPTS_REACHED then l else l.(state := After(l.state, event))
  }

  function Run(b: Backend, l: Lead, steps: seq<Step>): Lead
    decreases |steps|
  {
    if steps == [] then l else Run(b, Next(b, l, steps[0]), steps[1..])
  }

  predicate InOrder(now: int, steps: seq<Step>)
    decreases |steps|
  {
    steps == [] || (now <= steps[0].now && InOrder(steps[0].now, steps[1..]))
  }

  function Created(at: int, offsets: seq<int>): Lead {
    Lead(at, NEW, offsets, [], [], 0, 0)
  }

  // ----- counting over a list that grows at the end or changes in one place

  lemma CountAppend(attempts: seq<Attempt>, a: Attempt)
    ensures Reached(attempts + [a]) == Reached(attempts) + (if Counts(a) then 1 else 0)
    ensures forall ch :: RefusedOn(attempts + [a], ch) == RefusedOn(attempts, ch) + (if a.channel == ch && a.retryCount.Some? then 1 else 0)
    ensures LastFailure(attempts + [a]) == (if a.outcome == FAILED && a.failureClass.Some? then Some(a) else LastFailure(attempts))
  {
    assert (attempts + [a])[..|attempts|] == attempts;
  }

  lemma {:induction false} CountUpdate(attempts: seq<Attempt>, i: nat, a: Attempt)
    requires i < |attempts| && attempts[i].channel == a.channel && attempts[i].retryCount == a.retryCount
    ensures Reached(attempts[i := a]) + (if Counts(attempts[i]) then 1 else 0) == Reached(attempts) + (if Counts(a) then 1 else 0)
    ensures forall ch :: RefusedOn(attempts[i := a], ch) == RefusedOn(attempts, ch)
  {
    var n := |attempts| - 1;
    if i < n {
      assert attempts[i := a][..n] == attempts[..n][i := a];
      CountUpdate(attempts[..n], i, a);
    } else {
      assert attempts[i := a][..n] == attempts[..n];
    }
  }

  lemma {:induction false} RefusedIsFailed(attempts: seq<Attempt>, ch: Channel)
    requires forall i :: 0 <= i < |attempts| && attempts[i].retryCount.Some? ==> attempts[i].outcome == FAILED
    ensures RefusedOn(attempts, ch) <= FailedOn(attempts, ch)
  {
    if attempts != [] {
      RefusedIsFailed(attempts[..|attempts| - 1], ch);
    }
  }

  // ----- what every run keeps

  // A retry is planned for a transient refusal only, 5, 15 or 60 minutes after it.
  predicate BackoffOk(a: Attempt) {
    a.retryCount.Some? && a.retryAfter.Some? ==>
      && a.failureClass == Some(TRANSIENT)
      && a.retryCount.value < |RETRY_DELAYS_MINUTES|
      && a.retryAfter == Some(a.at + RETRY_DELAYS_MINUTES[a.retryCount.value] * MINUTE)
  }

  // A refused send is on record as failed with a class, knows at least how many refusals on its channel
  // came before it, and gives up from the fourth on.
  ghost predicate RefusalOk(attempts: seq<Attempt>, i: nat)
    requires i < |attempts|
  {
    var a := attempts[i];
    a.retryCount.Some? ==>
      && a.channel != VOICE && a.outcome == FAILED && a.failureClass.Some?
      && RefusedOn(attempts[..i], a.channel) <= a.retryCount.value
      && BackoffOk(a)
      && (a.retryAfter == None ==> i == |attempts| - 1)
      && forall j :: i < j < |attempts| && a.retryAfter.Some? ==> a.retryAfter.value <= attempts[j].at
  }

  ghost predicate Refusals(l: Lead) {
    forall i :: 0 <= i < |l.attempts| ==> RefusalOk(l.attempts, i)
  }

  // No delivery, of a message or of a call, falls inside a backoff or comes after the engine gave up.
  ghost predicate Quiet(l: Lead) {
    forall i, k :: 0 <= i < |l.attempts| && 0 <= k < |l.deliveries| && l.attempts[i].retryCount.Some? ==>
      || l.deliveries[k] <= l.attempts[i].at
      || (l.attempts[i].retryAfter.Some? && l.deliveries[k] >= l.attempts[i].retryAfter.value)
  }

  ghost predicate Schedule(l: Lead) {
    && |l.deliveries| <= |l.offsets|
    && (forall k :: 0 <= k < |l.deliveries| ==> l.deliveries[k] >= l.createdAt + SortedOffsets(l)[k] * MINUTE)
    && (l.state == NURTURE ==> |l.deliveries| == |l.offsets|)
  }

  ghost predicate NoVoice(l: Lead) {
    l.attemptsTotal >= 0 && forall i :: 0 <= i < |l.attempts| ==> l.attempts[i].channel != VOICE
  }

  ghost predicate Inv(l: Lead) {
    Refusals(l) && Schedule(l) && NoVoice(l) && Quiet(l)
  }

  // The counter says how many messages reached the borrower's carrier and how many calls were placed.
  predicate IsCounted(l: Lead) {
    l.attemptsTotal == l.voicePlaced + Reached(l.attempts)
  }

  // A send is stored only when the last refusal, if any, is transient and its backoff is over.
  lemma SendRespectsBackoff(b: Backend, l: Lead, now: int, e: Env, held: bool)
    requires Inv(l) && |Tick(b, l, now, e, held).0.attempts| > |l.attempts| > 0
    requires l.attempts[|l.attempts| - 1].retryCount.Some?
    ensures var last := l.attempts[|l.attempts| - 1];
            last.retryAfter.Some? && last.retryAfter.value <= now
  {
    assert RefusalOk(l.attempts, |l.attempts| - 1);
  }

  lemma AppendKeepsRefusals(attempts: seq<Attempt>, a: Attempt)
    requires forall i :: 0 <= i < |attempts| ==> RefusalOk(attempts, i)
    requires attempts != [] && attempts[|attempts| - 1].retryCount.Some? ==>
      attempts[|attempts| - 1].retryAfter.Some? && attempts[|attempts| - 1].retryAfter.value <= a.at
    requires forall i :: 0 <= i < |attempts| ==> attempts[i].at <= a.at
    requires a.retryCount.Some? ==>
      && a.channel != VOICE && a.outcome == FAILED && a.failureClass.Some? && a.retryCount.value == FailedOn(attempts, a.channel)
      && BackoffOk(a)
    ensures forall i :: 0 <= i <= |attempts| ==> RefusalOk(attempts + [a], i)
  {
    var longer := attempts + [a];
    forall i | 0 <= i <= |attempts| ensures RefusalOk(longer, i) {
      if i < |attempts| {
        assert RefusalOk(attempts, i);
        assert longer[..i] == attempts[..i];
      } else {
        assert longer[..i] == attempts;
        forall k | 0 <= k < |attempts| && attempts[k].retryCount.Some? ensures attempts[k].outcome == FAILED {
          assert RefusalOk(attempts, k);
        }
        RefusedIsFailed(attempts, a.channel);
      }
    }
  }

  ghost predicate Past(l: Lead, now: int) {
    && (forall i :: 0 <= i < |l.attempts| ==> l.attempts[i].at <= now)
    && (forall k :: 0 <= k < |l.deliveries| ==> l.deliveries[k] <= now)
  }

  // A delivery adds its instant to the record, starts first contact, and parks nobody.
  lemma DeliverIsRecorded(b: Backend, l: Lead, now: int, e: Env, held: bool)
    requires l.state in {NEW, ATTEMPTING_CONTACT}
    ensures var (after, r) := Deliver(b, l, now, e, held);
      && after.deliveries == (if r == Delivered then l.deliveries + [now] else l.deliveries)
      && after.state in {NEW, ATTEMPTING_CONTACT, SUPPRESSED}
      && after.createdAt == l.createdAt && after.offsets == l.offsets
  {
  }

  lemma TickKeepsSchedule(b: Backend, l: Lead, now: int, e: Env, held: bool)
    requires Schedule(l)
    ensures Schedule(Tick(b, l, now, e, held).0)
  {
    var (after, r) := Tick(b, l, now, e, held);
    if l.state in {NEW, ATTEMPTING_CONTACT} {
      DeliverIsRecorded(b, l, now, e, held);
    }
    assert after.createdAt == l.createdAt && after.offsets == l.offsets;
    if after.deliveries != l.deliveries {
      var k := |l.deliveries|;
      assert now - l.createdAt >= SortedOffsets(l)[k] * MINUTE;
      assert after.deliveries == l.deliveries + [now];
      forall j | 0 <= j < |after.deliveries| ensures after.deliveries[j] >= after.createdAt + SortedOffsets(after)[j] * MINUTE {
        if j < k {
          assert after.deliveries[j] == l.deliveries[j];
        }
      }
    }
  }

  lemma TickAppends(b: Backend, l: Lead, now: int, e: Env, held: bool)
    ensures var after := Tick(b, l, now, e, held).0;
            after.attempts == l.attempts
            || (|after.attempts| == |l.attempts| + 1 && after.attempts == l.attempts + [after.attempts[|l.attempts|]])
  {
  }

  // What a tick sends is on record as of now, and a refusal with its class, its place in the row of
  // refusals and its backoff.
  lemma DeliverRecords(b: Backend, l: Lead, now: int, e: Env, held: bool)
    ensures var after := Deliver(b, l, now, e, held).0;
      |after.attempts| > |l.attempts| ==>
        var a := after.attempts[|l.attempts|];
        && after.attempts == l.attempts + [a] && a.at == now
        && (a.retryCount.Some? ==>
              && a.channel != VOICE && a.outcome == FAILED && a.failureClass.Some? && a.retryCount.value == FailedOn(l.attempts, a.channel)
              && BackoffOk(a))
  {
  }

  // A tick that delivers or is refused gets that from Deliver; any other leaves the lists and the counter.
  lemma TickIsDeliver(b: Backend, l: Lead, now: int, e: Env, held: bool)
    ensures var (t, r) := Tick(b, l, now, e, held);
      || (t, r) == Deliver(b, l, now, e, held)
      || (&& r != Delivered && r != SendFailed
          && t.attemptsTotal == l.attemptsTotal && t.attempts == l.attempts && t.voicePlaced == l.voicePlaced && t.deliveries == l.deliveries)
    ensures Tick(b, l, now, e, held).1 == Tick(b, l, now, e, true).1
  {
  }

  lemma TickKeepsPast(b: Backend, l: Lead, now: int, e: Env, held: bool)
    requires Past(l, now)
    ensures Past(Tick(b, l, now, e, held).0, now)
  {
    TickIsDeliver(b, l, now, e, held);
    DeliverRecords(b, l, now, e, held);
  }

  lemma TickKeepsRefusals(b: Backend, l: Lead, now: int, e: Env, held: bool)
    requires Inv(l) && Past(l, now)
    ensures Refusals(Tick(b, l, now, e, held).0) && Past(Tick(b, l, now, e, held).0, now)
  {
    TickKeepsPast(b, l, now, e, held);
    TickIsDeliver(b, l, now, e, held);
    DeliverRecords(b, l, now, e, held);
    var after := Tick(b, l, now, e, held).0;
    if |after.attempts| > |l.attempts| {
      if l.attempts != [] && l.attempts[|l.attempts| - 1].retryCount.Some? {
        SendRespectsBackoff(b, l, now, e, held);
      }
      AppendKeepsRefusals(l.attempts, after.attempts[|l.attempts|]);
    } else {
      TickAppends(b, l, now, e, held);
    }
  }

  lemma {:induction false} LastFailureIs(attempts: seq<Attempt>, i: nat)
    requires i < |attempts| && attempts[i].outcome == FAILED && attempts[i].failureClass.Some?
    ensures LastFailure(attempts).Some?
    ensures LastFailure(attempts).value == attempts[i] || exists j :: i < j < |attempts| && LastFailure(attempts).value == attempts[j]
  {
    var n := |attempts| - 1;
    if i < n {
      LastFailureIs(attempts[..n], i);
    }
  }

  // When a tick delivers, whichever refusal one looks at has a planned retry and its time has come.
  lemma DeliveryIsDue(b: Backend, l: Lead, now: int, e: Env, held: bool, i: nat)
    requires Inv(l) && Past(l, now) && Tick(b, l, now, e, held).1 == Delivered
    requires i < |l.attempts| && l.attempts[i].retryCount.Some?
    ensures l.attempts[i].retryAfter.Some? && l.attempts[i].retryAfter.value <= now
  {
    assert RefusalOk(l.attempts, i);
    LastFailureIs(l.attempts, i);
    var last := LastFailure(l.attempts).value;
    if last != l.attempts[i] {
      var j :| i < j < |l.attempts| && last == l.attempts[j];
    }
  }

  lemma TickKeepsQuiet(b: Backend, l: Lead, now: int, e: Env, held: bool)
    requires Inv(l) && Past(l, now)
    ensures Quiet(Tick(b, l, now, e, held).0)
  {
    var (after, r) := Tick(b, l, now, e, held);
    TickAppends(b, l, now, e, held);
    OneStepPerTick(b, l, now, e, held);
    forall i, k | 0 <= i < |after.attempts| && 0 <= k < |after.deliveries| && after.attempts[i].retryCount.Some?
      ensures || after.deliveries[k] <= after.attempts[i].at
              || (after.attempts[i].retryAfter.Some? && after.deliveries[k] >= after.attempts[i].retryAfter.value)
    {
      if i < |l.attempts| && k == |l.deliveries| {
        DeliveryIsDue(b, l, now, e, held, i);
      }
    }
  }

  lemma TickKeepsNoVoice(b: Backend, l: Lead, now: int, e: Env, held: bool)
    requires NoVoice(l)
    ensures NoVoice(Tick(b, l, now, e, held).0)
  {
  }

  lemma {:induction false} CallbackKeepsRefusals(l: Lead, i: nat, a: Attempt)
    requires Refusals(l) && i < |l.attempts|
    requires l.attempts[i].retryCount == None && a.retryCount == None && a.channel == l.attempts[i].channel && a.at == l.attempts[i].at
    ensures Refusals(l.(attempts := l.attempts[i := a]))
  {
    var changed := l.attempts[i := a];
    forall k | 0 <= k < |changed| ensures RefusalOk(changed, k) {
      assert RefusalOk(l.attempts, k);
      if i < k {
        assert changed[..k] == l.attempts[..k][i := a];
        CountUpdate(l.attempts[..k], i, a);
      } else {
        assert changed[..k] == l.attempts[..k];
      }
    }
  }

  lemma {:induction false} ReachedHas(attempts: seq<Attempt>, i: nat)
    requires i < |attempts| && Counts(attempts[i])
    ensures Reached(attempts) >= 1
  {
    if i < |attempts| - 1 {
      ReachedHas(attempts[..|attempts| - 1], i);
    }
  }

  // While the counter is exact a callback does not meet it at zero, so the clip in its decrement does not act.
  lemma CallbackKeepsInv(l: Lead, i: nat, incoming: Outcome, cls: FailureClass, optOut: bool)
    requires Inv(l) && i < |l.attempts|
    ensures Inv(Callback(l, i, incoming, cls, optOut))
    ensures IsCounted(l) ==> IsCounted(Callback(l, i, incoming, cls, optOut))
    ensures IsCounted(l) && ShouldApply(l.attempts[i].outcome, incoming) && incoming in {UNDELIVERED, FAILED} ==>
      Callback(l, i, incoming, cls, optOut).attemptsTotal == l.attemptsTotal - 1
  {
    var a := l.attempts[i];
    assert RefusalOk(l.attempts, i);
    if ShouldApply(a.outcome, incoming) {
      var b := Callback(l, i, incoming, cls, optOut).attempts[i];
      CallbackKeepsRefusals(l, i, b);
      CountUpdate(l.attempts, i, b);
      ReachedHas(l.attempts, i);
    }
  }

  lemma NextKeepsInv(b: Backend, l: Lead, s: Step)
    requires Inv(l) && Past(l, s.now)
    ensures Inv(Next(b, l, s)) && Past(Next(b, l, s), s.now)
  {
    match s
    case TickAt(now, env, held) =>
      TickKeepsSchedule(b, l, now, env, held);
      TickKeepsRefusals(b, l, now, env, held);
      TickKeepsQuiet(b, l, now, env, held);
      TickKeepsNoVoice(b, l, now, env, held);
    case CallbackAt(_, i, incoming, cls, optOut) =>
      if i < |l.attempts| {
        CallbackKeepsInv(l, i, incoming, cls, optOut);
      }
    case EventAt(_, event) =>
  }

  lemma NextKeepsPlan(b: Backend, l: Lead, s: Step)
    ensures Next(b, l, s).createdAt == l.createdAt && Next(b, l, s).offsets == l.offsets
  {
  }

  lemma {:induction false} RunKeepsInv(b: Backend, l: Lead, now: int, steps: seq<Step>)
    requires Inv(l) && Past(l, now) && InOrder(now, steps)
    ensures Inv(Run(b, l, steps))
    ensures Run(b, l, steps).createdAt == l.createdAt && Run(b, l, steps).offsets == l.offsets
    decreases |steps|
  {
    if steps != [] {
      NextKeepsInv(b, l, steps[0]);
      NextKeepsPlan(b, l, steps[0]);
      RunKeepsInv(b, Next(b, l, steps[0]), steps[0].now, steps[1..]);
    }
  }

  // Over every run from intake: the k-th automated delivery is no earlier than the k-th step of the
  // plan in offset order, and the lead is only ever parked in NURTURE after the whole plan was delivered.
  lemma PlanIsRespected(b: Backend, at: int, offsets: seq<int>, steps: seq<Step>)
    requires InOrder(at, steps)
    ensures var l := Run(b, Created(at, offsets), steps);
      && |l.deliveries| <= |offsets|
      && (forall k :: 0 <= k < |l.deliveries| ==> l.deliveries[k] >= at + SortBy(offsets, Identity())[k] * MINUTE)
      && (l.state == NURTURE ==> |l.deliveries| == |offsets|)
  {
    RunKeepsInv(b, Created(at, offsets), at, steps);
  }

  // ----- when the counter is exact

  // A delivery made on a lead that is no longer the stored one when it is counted.
  predicate Uncounts(b: Backend, l: Lead, s: Step) {
    s.TickAt? && Tick(b, l, s.now, s.env, s.held).1 == Delivered && (!s.held || Replaces(b, l, s.now, s.env))
  }

  // A decrement that meets the counter at zero.
  predicate Clips(l: Lead, s: Step) {
    && s.CallbackAt? && s.i < |l.attempts| && l.attempts[s.i].channel != VOICE
    && ShouldApply(l.attempts[s.i].outcome, s.incoming) && s.incoming in {UNDELIVERED, FAILED} && l.attemptsTotal == 0
  }

  function Count(p: bool): nat {
    if p then 1 else 0
  }

  lemma DeliverCounts(b: Backend, l: Lead, now: int, e: Env, held: bool)
    ensures var (t, r) := Deliver(b, l, now, e, held);
            var lost := r == Delivered && !(held && !(e.channel == VOICE && b == Database && e.conversational));
      t.attemptsTotal + l.voicePlaced + Reached(l.attempts) + Count(lost) == l.attemptsTotal + t.voicePlaced + Reached(t.attempts)
  {
    var t := Deliver(b, l, now, e, held).0;
    if |t.attempts| > |l.attempts| {
      var a := t.attempts[|l.attempts|];
      assert t.attempts == l.attempts + [a];
      CountAppend(l.attempts, a);
    }
  }

  lemma TickCounts(b: Backend, l: Lead, now: int, e: Env, held: bool)
    ensures var t := Tick(b, l, now, e, held).0;
      t.attemptsTotal + l.voicePlaced + Reached(l.attempts) + Count(Uncounts(b, l, TickAt(now, e, held)))
      == l.attemptsTotal + t.voicePlaced + Reached(t.attempts)
  {
    TickIsDeliver(b, l, now, e, held);
    DeliverCounts(b, l, now, e, held);
  }

  lemma CallbackCounts(l: Lead, s: Step)
    requires Inv(l) && s.CallbackAt? && s.i < |l.attempts|
    ensures var t := Callback(l, s.i, s.incoming, s.cls, s.optOut);
      t.attemptsTotal + l.voicePlaced + Reached(l.attempts) == l.attemptsTotal + t.voicePlaced + Reached(t.attempts) + Count(Clips(l, s))
  {
    assert RefusalOk(l.attempts, s.i);
    if ShouldApply(l.attempts[s.i].outcome, s.incoming) {
      CountUpdate(l.attempts, s.i, Callback(l, s.i, s.incoming, s.cls, s.optOut).attempts[s.i]);
    }
  }

  function Uncounted(b: Backend, l: Lead, steps: seq<Step>): nat
    decreases |steps|
  {
    if steps == [] then 0 else Count(Uncounts(b, l, steps[0])) + Uncounted(b, Next(b, l, steps[0]), steps[1..])
  }

  function Clipped(b: Backend, l: Lead, steps: seq<Step>): nat
    decreases |steps|
  {
    if steps == [] then 0 else Count(Clips(l, steps[0])) + Clipped(b, Next(b, l, steps[0]), steps[1..])
  }

  lemma NextCounts(b: Backend, l: Lead, s: Step)
    requires Inv(l)
    ensures var t := Next(b, l, s);
      t.attemptsTotal + l.voicePlaced + Reached(l.attempts) + Count(Uncounts(b, l, s))
      == l.attemptsTotal + t.voicePlaced + Reached(t.attempts) + Count(Clips(l, s))
  {
    match s
    case TickAt(now, env, held) => TickCounts(b, l, now, env, held);
    case CallbackAt(_, i, _, _, _) =>
      if i < |l.attempts| {
        CallbackCounts(l, s);
      }
    case EventAt(_, event) =>
  }

  lemma {:induction false} RunCounts(b: Backend, l: Lead, now: int, steps: seq<Step>)
    requires Inv(l) && Past(l, now) && InOrder(now, steps)
    ensures var t := Run(b, l, steps);
      t.attemptsTotal + l.voicePlaced + Reached(l.attempts) + Uncounted(b, l, steps)
      == l.attemptsTotal + t.voicePlaced + Reached(t.attempts) + Clipped(b, l, steps)
    decreases |steps|
  {
    if steps != [] {
      NextCounts(b, l, steps[0]);
      NextKeepsInv(b, l, steps[0]);
      RunCounts(b, Next(b, l, steps[0]), steps[0].now, steps[1..]);
    }
  }

  // Over every run the stored counter is the number of messages that were neither refused nor bounced plus
  // the calls placed, less the deliveries that were not counted, plus the decrements that were clipped.
  lemma CounterIsExact(b: Backend, at: int, offsets: seq<int>, steps: seq<Step>)
    requires InOrder(at, steps)
    ensures var l := Run(b, Created(at, offsets), steps);
            l.attemptsTotal == l.voicePlaced + Reached(l.attempts) - Uncounted(b, Created(at, offsets), steps) + Clipped(b, Created(at, offsets), steps)
  {
    RunCounts(b, Created(at, offsets), at, steps);
  }

  ghost predicate AlwaysCounted(b: Backend, l: Lead, steps: seq<Step>)
    decreases |steps|
  {
    IsCounted(l) && (steps == [] || AlwaysCounted(b, Next(b, l, steps[0]), steps[1..]))
  }

  predicate CountsAll(b: Backend, l: Lead, steps: seq<Step>)
    decreases |steps|
  {
    steps == [] || (!Uncounts(b, l, steps[0]) && CountsAll(b, Next(b, l, steps[0]), steps[1..]))
  }

  lemma NextIsCountedExactly(b: Backend, l: Lead, s: Step)
    requires Inv(l) && IsCounted(l)
    ensures IsCounted(Next(b, l, s)) <==> !Uncounts(b, l, s)
  {
    NextCounts(b, l, s);
    if s.CallbackAt? && s.i < |l.attempts| {
      CallbackKeepsInv(l, s.i, s.incoming, s.cls, s.optOut);
    }
  }

  // It is exact all along a run if and only if every delivery was made on the stored lead and was not a
  // conversational call with the database; and then no decrement is ever clipped.
  lemma {:induction false} AlwaysCountedExactly(b: Backend, l: Lead, now: int, steps: seq<Step>)
    requires Inv(l) && IsCounted(l) && Past(l, now) && InOrder(now, steps)
    ensures AlwaysCounted(b, l, steps) <==> CountsAll(b, l, steps)
    ensures CountsAll(b, l, steps) ==> Clipped(b, l, steps) == 0
    decreases |steps|
  {
    if steps != [] {
      NextCounts(b, l, steps[0]);
      NextIsCountedExactly(b, l, steps[0]);
      NextKeepsInv(b, l, steps[0]);
      if !Uncounts(b, l, steps[0]) {
        AlwaysCountedExactly(b, Next(b, l, steps[0]), steps[0].now, steps[1..]);
      }
    }
  }

  // The failing family: with the database a conversational call that is due moves the plan on and leaves
  // counter and state of the lead as they were.
  lemma CallIsNotCounted(l: Lead, now: int, e: Env, held: bool)
    requires Replaces(Database, l, now, e) && e.send == Accepted
    ensures Tick(Database, l, now, e, held).0 == l.(voicePlaced := l.voicePlaced + 1, deliveries := l.deliveries + [now])
  {
  }

  lemma {:induction false} RefusalsBounded(attempts: seq<Attempt>, ch: Channel)
    requires forall i :: 0 <= i < |attempts| ==> attempts[i].retryCount.Some? ==>
      RefusedOn(attempts[..i], attempts[i].channel) <= attempts[i].retryCount.value && attempts[i].retryCount.value < |RETRY_DELAYS_MINUTES|
    ensures RefusedOn(attempts, ch) <= |RETRY_DELAYS_MINUTES|
  {
    if attempts != [] {
      var n := |attempts| - 1;
      forall i | 0 <= i < n && attempts[..n][i].retryCount.Some?
        ensures RefusedOn(attempts[..n][..i], attempts[..n][i].channel) <= attempts[..n][i].retryCount.value
      {
        assert attempts[..n][..i] == attempts[..i];
      }
      RefusalsBounded(attempts[..n], ch);
    }
  }

  lemma FrontRefusals(l: Lead, ch: Channel)
    requires Refusals(l) && l.attempts != []
    ensures RefusedOn(l.attempts[..|l.attempts| - 1], ch) <= |RETRY_DELAYS_MINUTES|
  {
    var front := l.attempts[..|l.attempts| - 1];
    forall i | 0 <= i < |front| && front[i].retryCount.Some?
      ensures RefusedOn(front[..i], front[i].channel) <= front[i].retryCount.value < |RETRY_DELAYS_MINUTES|
    {
      assert RefusalOk(l.attempts, i);
      assert front[..i] == l.attempts[..i];
    }
    RefusalsBounded(front, ch);
  }

  // Over every run at most four sends per channel are refused.
  lemma AtMostFourRefusals(b: Backend, at: int, offsets: seq<int>, steps: seq<Step>, ch: Channel)
    requires InOrder(at, steps)
    ensures RefusedOn(Run(b, Created(at, offsets), steps).attempts, ch) <= 4
  {
    var l := Run(b, Created(at, offsets), steps);
    RunKeepsInv(b, Created(at, offsets), at, steps);
    if l.attempts != [] {
      FrontRefusals(l, ch);
    }
  }

  // An instant at which something may go out again after a refused send.
  predicate IsRetry(a: Attempt, at: int) {
    && a.failureClass == Some(TRANSIENT)
    && a.retryCount.Some? && a.retryCount.value < |RETRY_DELAYS_MINUTES|
    && at >= a.at + RETRY_DELAYS_MINUTES[a.retryCount.value] * MINUTE
  }

  // Over every run, whatever is sent to a lead after a refused send comes at least the planned 5, 15 or
  // 60 minutes later; after a refusal that planned no retry nothing is sent at all. The same holds of every
  // delivery, calls included: none is later than a refusal and earlier than its planned retry.
  lemma BackoffIsRespected(b: Backend, at: int, offsets: seq<int>, steps: seq<Step>, i: nat)
    requires InOrder(at, steps)
    requires i < |Run(b, Created(at, offsets), steps).attempts|
    requires Run(b, Created(at, offsets), steps).attempts[i].retryCount.Some?
    ensures var l := Run(b, Created(at, offsets), steps);
            var a := l.attempts[i];
      && (forall j :: i < j < |l.attempts| ==> IsRetry(a, l.attempts[j].at))
      && (forall k :: 0 <= k < |l.deliveries| && l.deliveries[k] > a.at ==> IsRetry(a, l.deliveries[k]))
  {
    RunKeepsInv(b, Created(at, offsets), at, steps);
    assert RefusalOk(Run(b, Created(at, offsets), steps).attempts, i);
  }

  // ----- when something goes out, told by the stored lead and what the tick meets

  // The steps of the plan in order of time.
  lemma OffsetsAscend(l: Lead)
    ensures |SortedOffsets(l)| == |l.offsets| && multiset(SortedOffsets(l)) == multiset(l.offsets)
    ensures forall i, j :: 0 <= i < j < |l.offsets| ==> SortedOffsets(l)[i] <= SortedOffsets(l)[j]
  {
    SortSorted(l.offsets, Identity());
    assert forall i, j :: 0 <= i < j < |l.offsets| ==> Identity()(SortedOffsets(l)[i]) <= Identity()(SortedOffsets(l)[j]);
  }

  // Automation is still at this lead and its next step is due.
  predicate IsTurn(l: Lead, now: int) {
    && (l.state == NEW || l.state == ATTEMPTING_CONTACT)
    && |l.deliveries| < |l.offsets|
    && now >= l.createdAt + SortedOffsets(l)[|l.deliveries|] * 60_000
  }

  ghost predicate IsLastFailure(attempts: seq<Attempt>, n: nat) {
    && n < |attempts| && attempts[n].outcome == FAILED && attempts[n].failureClass.Some?
    && forall m :: n < m < |attempts| ==> attempts[m].outcome != FAILED || attempts[m].failureClass == None
  }

  // The last failure, if there is one, is transient, is to be retried, and its time has come.
  ghost predicate IsUnhindered(l: Lead, now: int) {
    forall n: nat :: IsLastFailure(l.attempts, n) ==>
      && l.attempts[n].failureClass == Some(TRANSIENT)
      && l.attempts[n].retryAfter.Some? && l.attempts[n].retryAfter.value <= now
  }

  // Nothing holds the step back: the borrower is away, the channel is configured, the gate allows it, and
  // a call passes its preflight.
  ghost predicate IsClear(l: Lead, now: int, e: Env) {
    && IsTurn(l, now) && IsUnhindered(l, now)
    && !e.engaged && e.ready && e.allowed && !(e.channel == VOICE && e.voiceBlocked)
  }

  // A refused call leaves nothing here.
  ghost predicate GoesOut(l: Lead, now: int, e: Env) {
    IsClear(l, now, e) && !(e.channel == VOICE && e.send.Refused?)
  }

  function FailuresOn(attempts: seq<Attempt>, ch: Channel): set<nat> {
    set n: nat | n < |attempts| && attempts[n].channel == ch && attempts[n].outcome == FAILED
  }

  lemma {:induction false} FailedOnCounts(attempts: seq<Attempt>, ch: Channel)
    ensures FailedOn(attempts, ch) == |FailuresOn(attempts, ch)|
  {
    if attempts != [] {
      var n: nat := |attempts| - 1;
      FailedOnCounts(attempts[..n], ch);
      var before := FailuresOn(attempts[..n], ch);
      assert n !in before;
      if attempts[n].channel == ch && attempts[n].outcome == FAILED {
        assert FailuresOn(attempts, ch) == before + {n};
      } else {
        assert FailuresOn(attempts, ch) == before;
      }
    }
  }

  // What a message leaves on record: sent, or refused with its class, the failures before it, and when to
  // retry: 5, 15 and 60 minutes after the first three transient ones.
  function Recorded(l: Lead, now: int, e: Env): Attempt {
    match e.send
    case Accepted => Attempt(e.channel, SENT, None, None, None, now)
    case Refused(cls, _) =>
      var prior := |FailuresOn(l.attempts, e.channel)|;
      Attempt(e.channel, FAILED, Some(cls),
              if cls == TRANSIENT && prior < 3 then Some(now + [300_000, 900_000, 3_600_000][prior]) else None, Some(prior), now)
  }

  lemma {:induction false} LastFailureExactly(attempts: seq<Attempt>)
    ensures match LastFailure(attempts)
            case None => forall n: nat :: !IsLastFailure(attempts, n)
            case Some(a) => exists n: nat :: IsLastFailure(attempts, n) && attempts[n] == a
    ensures forall n: nat, m: nat :: IsLastFailure(attempts, n) && IsLastFailure(attempts, m) ==> n == m
  {
    if attempts != [] {
      var last: nat := |attempts| - 1;
      if attempts[last].outcome == FAILED && attempts[last].failureClass.Some? {
        assert IsLastFailure(attempts, last);
      } else {
        LastFailureExactly(attempts[..last]);
        forall n: nat ensures IsLastFailure(attempts, n) <==> IsLastFailure(attempts[..last], n) {
          assert n < last ==> attempts[..last][n] == attempts[n];
        }
      }
    }
  }

  // The guard of the tick.
  lemma ReachesDeliver(b: Backend, l: Lead, now: int, e: Env, held: bool)
    ensures IsTurn(l, now) && IsUnhindered(l, now) && !e.engaged && e.ready ==> Tick(b, l, now, e, held) == Deliver(b, l, now, e, held)
    ensures !(IsTurn(l, now) && IsUnhindered(l, now) && !e.engaged && e.ready) ==>
      var t := Tick(b, l, now, e, held).0;
      t.attempts == l.attempts && t.deliveries == l.deliveries && t.voicePlaced == l.voicePlaced && t.attemptsTotal == l.attemptsTotal
  {
    LastFailureExactly(l.attempts);
  }

  // Held back, a tick sends, places and counts nothing; clear, it leaves exactly one message on record or
  // one more call, and a delivery if it was accepted.
  lemma TickSendsExactly(b: Backend, l: Lead, now: int, e: Env, held: bool)
    ensures var t := Tick(b, l, now, e, held).0;
      && t.attempts == (if IsClear(l, now, e) && e.channel != VOICE then l.attempts + [Recorded(l, now, e)] else l.attempts)
      && t.voicePlaced == l.voicePlaced + Count(IsClear(l, now, e) && e.channel == VOICE && e.send.Accepted?)
      && t.deliveries == (if IsClear(l, now, e) && e.send.Accepted? then l.deliveries + [now] else l.deliveries)
      && (!IsClear(l, now, e) || e.send.Refused? ==> t.attemptsTotal == l.attemptsTotal)
  {
    ReachesDeliver(b, l, now, e, held);
    FailedOnCounts(l.attempts, e.channel);
  }

  // The last failure is not one to retry, or no retry was planned after it.
  ghost predicate IsGivenUp(l: Lead) {
    exists n: nat :: IsLastFailure(l.attempts, n) && (l.attempts[n].failureClass != Some(TRANSIENT) || l.attempts[n].retryAfter == None)
  }

  // The step may be taken now, unless the borrower is on the page.
  ghost predicate IsReady(l: Lead, now: int) {
    IsTurn(l, now) && IsUnhindered(l, now)
  }

  // What a tick meets that reports a lead under this heading.
  ghost predicate Meets(r: Result, l: Lead, now: int, e: Env) {
    match r
    case Delivered => IsClear(l, now, e) && e.send.Accepted?
    case SendFailed => IsClear(l, now, e) && e.send.Refused?
    case Blocked => IsReady(l, now) && !e.engaged && e.ready && !IsClear(l, now, e)
    case HeldForChannel => IsReady(l, now) && !e.engaged && !e.ready
    case HeldForEngagement => IsReady(l, now) && e.engaged
    case HeldForFailure => IsTurn(l, now) && IsGivenUp(l)
    case Exhausted => l.state == ATTEMPTING_CONTACT && l.offsets != [] && |l.deliveries| >= |l.offsets|
    case _ => false
  }

  predicate IsHeading(r: Result) {
    r in {Delivered, SendFailed, Blocked, HeldForChannel, HeldForEngagement, HeldForFailure, Exhausted}
  }

  // How a tick is reported.
  lemma ResultExactly(b: Backend, l: Lead, now: int, e: Env, held: bool, r: Result)
    requires IsHeading(r)
    ensures Tick(b, l, now, e, held).1 == r <==> Meets(r, l, now, e)
  {
    ReachesDeliver(b, l, now, e, held);
    LastFailureExactly(l.attempts);
  }

  // The store is saved in the middle of a tick, and every object of it replaced, exactly if the step is a
  // conversational call with nothing to hold it back, and the store is the database.
  lemma ReplacesExactly(b: Backend, l: Lead, now: int, e: Env)
    ensures Replaces(b, l, now, e) <==> b == Database && e.channel == VOICE && e.conversational && IsClear(l, now, e)
  {
    ResultExactly(b, l, now, e, true, Delivered);
    ResultExactly(b, l, now, e, true, SendFailed);
  }

  // What it makes of the lead, as far as the lead is still the stored one: an accepted message or call is
  // counted and begins the contact, a refusal for an opt-out closes it, and a plan that was delivered in
  // full parks it.
  lemma TickMovesExactly(b: Backend, l: Lead, now: int, e: Env, held: bool)
    ensures var t, isHeld := Tick(b, l, now, e, held).0, held && !(e.channel == VOICE && b == Database && e.conversational);
      && (IsClear(l, now, e) && e.send.Accepted? && isHeld ==>
            t.attemptsTotal == l.attemptsTotal + 1 && t.state == ATTEMPTING_CONTACT)
      && (IsClear(l, now, e) && e.send.Accepted? && !isHeld ==> t.attemptsTotal == l.attemptsTotal && t.state == l.state)
      && (IsClear(l, now, e) && e.send.Refused? ==> t.state == if e.channel == SMS && e.send.optOut && held then SUPPRESSED else l.state)
      && (!IsClear(l, now, e) ==>
            t.state == if l.state == ATTEMPTING_CONTACT && l.offsets != [] && |l.deliveries| >= |l.offsets| && held then NURTURE else l.state)
  {
    ReachesDeliver(b, l, now, e, held);
    if IsTurn(l, now) {
      LastFailureExactly(l.attempts);
    }
  }

  lemma GoesOutExactly(b: Backend, l: Lead, now: int, e: Env, held: bool)
    ensures var t := Tick(b, l, now, e, held).0;
            (t.attempts != l.attempts || t.voicePlaced != l.voicePlaced) <==> GoesOut(l, now, e)
    ensures var t := Tick(b, l, now, e, held).0;
            t.deliveries != l.deliveries <==> GoesOut(l, now, e) && e.send.Accepted?
  {
    TickSendsExactly(b, l, now, e, held);
  }

  // Over a run: how many messages and calls went out, and how many were delivered.
  ghost function Outgoing(b: Backend, l: Lead, steps: seq<Step>): nat
    decreases |steps|
  {
    if steps == [] then 0
    else Count(steps[0].TickAt? && GoesOut(l, steps[0].now, steps[0].env)) + Outgoing(b, Next(b, l, steps[0]), steps[1..])
  }

  ghost function Arriving(b: Backend, l: Lead, steps: seq<Step>): nat
    decreases |steps|
  {
    if steps == [] then 0
    else Count(steps[0].TickAt? && GoesOut(l, steps[0].now, steps[0].env) && steps[0].env.send.Accepted?)
         + Arriving(b, Next(b, l, steps[0]), steps[1..])
  }

  lemma NextSends(b: Backend, l: Lead, s: Step)
    ensures var t := Next(b, l, s);
      && |t.attempts| + t.voicePlaced == |l.attempts| + l.voicePlaced + Count(s.TickAt? && GoesOut(l, s.now, s.env))
      && |t.deliveries| == |l.deliveries| + Count(s.TickAt? && GoesOut(l, s.now, s.env) && s.env.send.Accepted?)
  {
    if s.TickAt? {
      TickSendsExactly(b, l, s.now, s.env, s.held);
    }
  }

  lemma {:induction false} SendsOverRun(b: Backend, l: Lead, steps: seq<Step>)
    ensures var t := Run(b, l, steps);
      && |t.attempts| + t.voicePlaced == |l.attempts| + l.voicePlaced + Outgoing(b, l, steps)
      && |t.deliveries| == |l.deliveries| + Arriving(b, l, steps)
    decreases |steps|
  {
    if steps != [] {
      NextSends(b, l, steps[0]);
      SendsOverRun(b, Next(b, l, steps[0]), steps[1..]);
    }
  }

  // Every tick of the run meets the borrower on the page, a channel that is not configured, or a gate that
  // does not allow it.
  predicate AllHeldBack(steps: seq<Step>)
    decreases |steps|
  {
    steps == [] ||
    ((steps[0].TickAt? ==> !steps[0].env.allowed || steps[0].env.engaged || !steps[0].env.ready) && AllHeldBack(steps[1..]))
  }

  // Then nothing goes out over the whole run.
  lemma {:induction false} NothingGoesOut(b: Backend, l: Lead, steps: seq<Step>)
    requires AllHeldBack(steps)
    ensures Outgoing(b, l, steps) == 0 && Arriving(b, l, steps) == 0
    decreases |steps|
  {
    if steps != [] {
      NothingGoesOut(b, Next(b, l, steps[0]), steps[1..]);
    }
  }

  // A provider's report counts only while the message is underway; a bounce takes it out of the counter, and
  // one for an opt-out by text closes the lead.
  lemma ReportExactly(l: Lead, i: nat, incoming: Outcome, cls: FailureClass, optOut: bool)
    requires i < |l.attempts| && l.attempts[i].channel != VOICE
    ensures var t, was := Callback(l, i, incoming, cls, optOut), l.attempts[i];
            var counts := (was.outcome == QUEUED && incoming != QUEUED) || (was.outcome == SENT && incoming != QUEUED && incoming != SENT);
            var bounces := counts && (incoming == FAILED || incoming == UNDELIVERED);
      && t.attempts == (if counts then l.attempts[i := was.(outcome := incoming, failureClass := if bounces then Some(cls) else was.failureClass)] else l.attempts)
      && t.attemptsTotal == (if bounces && l.attemptsTotal > 0 then l.attemptsTotal - 1 else if bounces then 0 else l.attemptsTotal)
      && t.state == (if bounces && was.channel == SMS && optOut && l.state !in {SUPPRESSED, CLOSED_WON, CLOSED_LOST} then SUPPRESSED else l.state)
      && t.deliveries == l.deliveries && t.voicePlaced == l.voicePlaced
  {
    assert l.attempts[i := l.attempts[i]] == l.attempts;
  }

  // A tick advances the plan by at most one step, and by one exactly when it delivered.
  lemma OneStepPerTick(b: Backend, l: Lead, now: int, e: Env, held: bool)
    ensures var (after, r) := Tick(b, l, now, e, held);
      && |after.deliveries| == |l.deliveries| + (if r == Delivered then 1 else 0)
      && (r in {NotDue, HeldForFailure, InBackoff, HeldForEngagement, HeldForChannel, Blocked} ==> after == l)
  {
  }
}

/** The tick over all leads (cadenceEngine.ts, runCadenceTick). */
module CadenceEngine {
  import opened Common
  import opened LeadStates
  import opened DeliveryStatus
  import opened CadenceLead

  datatype Summary = Summary(processed: nat, delivered: nat, blocked: nat, failed: nat, exhausted: nat,
                             heldForEngagement: nat, heldForChannel: nat, heldForFailure: nat)

  const IDLE := Summary(0, 0, 0, 0, 0, 0, 0, 0)

  function Noted(s: Summary, r: Result): Summary {
    match r
    case Delivered => s.(processed := s.processed + 1, delivered := s.delivered + 1)
    case Blocked => s.(processed := s.processed + 1, blocked := s.blocked + 1)
    case SendFailed => s.(processed := s.processed + 1, failed := s.failed + 1)
    case HeldForChannel => s.(processed := s.processed + 1, heldForChannel := s.heldForChannel + 1)
    case HeldForEngagement => s.(heldForEngagement := s.heldForEngagement + 1)
    case HeldForFailure => s.(heldForFailure := s.heldForFailure + 1)
    case Exhausted => s.(exhausted := s.exhausted + 1)
    case _ => s
  }

  function TotalDeliveries(leads: seq<Lead>): nat {
    if leads == [] then 0 else TotalDeliveries(leads[..|leads| - 1]) + |leads[|leads| - 1].deliveries|
  }

  // After these leads the tick still works on the stored ones.
  predicate Held(b: Backend, before: seq<Lead>, now: int, env: nat -> Env) {
    before == [] ||
    (var n := |before| - 1; Held(b, before[..n], now, env) && !Replaces(b, before[n], now, env(n)))
  }

  // Each lead takes its own tick.
  function TickAll(b: Backend, leads: seq<Lead>, now: int, env: nat -> Env): (r: seq<Lead>)
    ensures |r| == |leads|
  {
    if leads == [] then []
    else
      var n := |leads| - 1;
      TickAll(b, leads[..n], now, env) + [Tick(b, leads[n], now, env(n), Held(b, leads[..n], now, env)).0]
  }

  lemma {:induction false} TickAllAt(b: Backend, leads: seq<Lead>, now: int, env: nat -> Env, i: nat)
    requires i < |leads|
    ensures TickAll(b, leads, now, env)[i] == Tick(b, leads[i], now, env(i), Held(b, leads[..i], now, env)).0
  {
    var n := |leads| - 1;
    if i < n {
      TickAllAt(b, leads[..n], now, env, i);
      assert leads[..n][..i] == leads[..i];
    }
  }

  // A tick leaves a lead's counter exact if and only if it delivered nothing to it, or neither a
  // conversational call to it nor one to a lead before it was placed with the database.
  lemma TickCountsExactly(b: Backend, leads: seq<Lead>, now: int, env: nat -> Env, i: nat)
    requires i < |leads| && Inv(leads[i]) && IsCounted(leads[i])
    ensures IsCounted(TickAll(b, leads, now, env)[i]) <==>
      Tick(b, leads[i], now, env(i), true).1 != Delivered || Held(b, leads[..i + 1], now, env)
  {
    TickAllAt(b, leads, now, env, i);
    HeldNext(b, leads, now, env, i);
    OneTickCounts(b, leads[i], now, env(i), Held(b, leads[..i], now, env));
  }

  lemma HeldNext(b: Backend, leads: seq<Lead>, now: int, env: nat -> Env, i: nat)
    requires i < |leads|
    ensures Held(b, leads[..i + 1], now, env) <==> Held(b, leads[..i], now, env) && !Replaces(b, leads[i], now, env(i))
  {
    assert leads[..i + 1][..i] == leads[..i];
  }

  lemma OneTickCounts(b: Backend, l: Lead, now: int, e: Env, held: bool)
    requires Inv(l) && IsCounted(l)
    ensures IsCounted(Tick(b, l, now, e, held).0) <==> Tick(b, l, now, e, true).1 != Delivered || (held && !Replaces(b, l, now, e))
  {
    NextIsCountedExactly(b, l, TickAt(now, e, held));
  }

  // The report over a list of leads.
  function Tally(b: Backend, leads: seq<Lead>, now: int, env: nat -> Env): Summary {
    if leads == [] then IDLE
    else
      var n := |leads| - 1;
      Noted(Tally(b, leads[..n], now, env), Tick(b, leads[n], now, env(n), Held(b, leads[..n], now, env)).1)
  }

  predicate Balanced(s: Summary) {
    s.processed == s.delivered + s.blocked + s.failed + s.heldForChannel
  }

  lemma NotedAdds(s: Summary, r: Result)
    requires Balanced(s)
    ensures Balanced(Noted(s, r)) && Noted(s, r).delivered == s.delivered + if r == Delivered then 1 else 0
  {
  }

  // The report adds up, and what it calls delivered is exactly how many plan steps fired.
  lemma {:induction false} TallyAddsUp(b: Backend, leads: seq<Lead>, now: int, env: nat -> Env)
    ensures Balanced(Tally(b, leads, now, env))
    ensures TotalDeliveries(TickAll(b, leads, now, env)) == TotalDeliveries(leads) + Tally(b, leads, now, env).delivered
  {
    if leads != [] {
      var n := |leads| - 1;
      var ticked, held := TickAll(b, leads[..n], now, env), Held(b, leads[..n], now, env);
      TallyAddsUp(b, leads[..n], now, env);
      OneStepPerTick(b, leads[n], now, env(n), held);
      NotedAdds(Tally(b, leads[..n], now, env), Tick(b, leads[n], now, env(n), held).1);
      assert TickAll(b, leads, now, env)[..n] == ticked;
    }
  }

  // ----- the report, counted lead by lead

  // Those of the first n leads that meet what a heading says.
  ghost function Meeting(r: Result, leads: seq<Lead>, now: int, env: nat -> Env, n: nat): set<nat> {
    Those(MeetsAt(r, leads, now, env), n)
  }

  ghost function MeetsAt(r: Result, leads: seq<Lead>, now: int, env: nat -> Env): nat -> bool {
    (i: nat) => i < |leads| && Meets(r, leads[i], now, env(i))
  }

  ghost function Those(p: nat -> bool, n: nat): set<nat> {
    set i: nat | i < n && p(i)
  }

  lemma CountMore(p: nat -> bool, n: nat)
    ensures |Those(p, n + 1)| == |Those(p, n)| + Count(p(n))
  {
    assert Those(p, n + 1) == Those(p, n) + if p(n) then {n} else {};
  }

  lemma OneMore(r: Result, leads: seq<Lead>, now: int, env: nat -> Env, n: nat)
    requires n < |leads|
    ensures |Meeting(r, leads, now, env, n + 1)| == |Meeting(r, leads, now, env, n)| + Count(Meets(r, leads[n], now, env(n)))
  {
    CountMore(MeetsAt(r, leads, now, env), n);
  }

  // What the report says under a heading.
  function Entry(s: Summary, r: Result): nat
    requires IsHeading(r)
  {
    match r
    case Delivered => s.delivered
    case SendFailed => s.failed
    case Blocked => s.blocked
    case HeldForChannel => s.heldForChannel
    case HeldForEngagement => s.heldForEngagement
    case HeldForFailure => s.heldForFailure
    case Exhausted => s.exhausted
  }

  lemma NotedExactly(s: Summary, b: Backend, l: Lead, now: int, e: Env, held: bool, r: Result)
    requires IsHeading(r)
    ensures Entry(Noted(s, Tick(b, l, now, e, held).1), r) == Entry(s, r) + Count(Meets(r, l, now, e))
  {
    ResultExactly(b, l, now, e, held, r);
  }

  // The report counts, under each of its headings, the leads that meet what the heading says.
  lemma {:induction false} TallyExactly(b: Backend, leads: seq<Lead>, now: int, env: nat -> Env, n: nat, r: Result)
    requires n <= |leads| && IsHeading(r)
    ensures Entry(Tally(b, leads[..n], now, env), r) == |Meeting(r, leads, now, env, n)|
    decreases n
  {
    if n > 0 {
      var before := leads[..n - 1];
      assert leads[..n][..n - 1] == before;
      TallyExactly(b, leads, now, env, n - 1, r);
      NotedExactly(Tally(b, before, now, env), b, leads[n - 1], now, env(n - 1), Held(b, before, now, env), r);
      OneMore(r, leads, now, env, n - 1);
    }
  }

  // Where the tick is after i leads.
  ghost predicate Between(b: Backend, start: seq<Lead>, now: int, env: nat -> Env, i: nat, leads: seq<Lead>, held: bool, summary: Summary) {
    && i <= |start| == |leads|
    && leads == TickAll(b, start[..i], now, env) + start[i..]
    && held == Held(b, start[..i], now, env)
    && summary == Tally(b, start[..i], now, env)
  }

  lemma TickAllStep(b: Backend, start: seq<Lead>, now: int, env: nat -> Env, i: nat, leads: seq<Lead>, held: bool, summary: Summary)
    requires i < |start| && Between(b, start, now, env, i, leads, held, summary)
    ensures leads[i] == start[i]
    ensures var (after, result) := Tick(b, leads[i], now, env(i), held);
            Between(b, start, now, env, i + 1, leads[i := after], held && !Replaces(b, leads[i], now, env(i)), Noted(summary, result))
  {
    assert start[..i + 1][..i] == start[..i];
  }

  lemma TickAllEnd(b: Backend, start: seq<Lead>, now: int, env: nat -> Env, leads: seq<Lead>, held: bool, summary: Summary)
    requires Between(b, start, now, env, |start|, leads, held, summary)
    ensures leads == TickAll(b, start, now, env) && summary == Tally(b, start, now, env)
  {
    assert start[..|start|] == start;
  }

  class Engine {
    const backend: Backend
    var leads: seq<Lead>

    constructor (backend: Backend, initial: seq<Lead>)
      ensures this.backend == backend && leads == initial
    {
      this.backend := backend;
      leads := initial;
    }

    // Sends one automated message, or places one call, to the k-th lead. lead is the object the tick works
    // on, stored the one in the store; held says whether they are the same.
    method DeliverOutreach(k: nat, now: int, e: Env, held: bool) returns (result: Result)
      requires k < |leads|
      modifies this
      ensures leads == old(leads)[k := Deliver(backend, old(leads)[k], now, e, held).0]
      ensures result == Deliver(backend, old(leads)[k], now, e, held).1
    {
      var lead, stored := leads[k], leads[k];
      assert leads == leads[k := lead];
      if !e.allowed || (e.channel == VOICE && e.voiceBlocked) {
        return Blocked;
      }
      var isHeld := held && !(e.channel == VOICE && backend == Database && e.conversational);
      if e.send.Refused? {
        if e.channel != VOICE {
          var priorFailures := FailedOn(lead.attempts, e.channel);
          var delay := DecideRetry(e.send.cls, priorFailures);
          var retryAfter := if delay.Some? then Some(now + delay.value * MINUTE) else None;
          stored := stored.(attempts := stored.attempts + [Attempt(e.channel, FAILED, Some(e.send.cls), retryAfter, Some(priorFailures), now)]);
          if e.channel == SMS && e.send.optOut && lead.state !in TERMINAL_STATES && isHeld {
            stored := stored.(state := SUPPRESSED);
          }
        }
        leads := leads[k := stored];
        return SendFailed;
      }
      if e.channel == VOICE {
        stored := stored.(voicePlaced := stored.voicePlaced + 1);
      } else {
        stored := stored.(attempts := stored.attempts + [Attempt(e.channel, SENT, None, None, None, now)]);
      }
      if isHeld {
        stored := stored.(attemptsTotal := lead.attemptsTotal + 1);
        if lead.state == NEW {
          stored := stored.(state := After(lead.state, OUTREACH_ATTEMPTED));
        }
      }
      leads := leads[k := stored.(deliveries := stored.deliveries + [now])];
      return Delivered;
    }

    // One pass of the loop body for the k-th lead.
    method TickLead(k: nat, now: int, e: Env, held: bool) returns (result: Result, stillHeld: bool)
      requires k < |leads|
      modifies this
      ensures leads == old(leads)[k := Tick(backend, old(leads)[k], now, e, held).0]
      ensures result == Tick(backend, old(leads)[k], now, e, held).1
      ensures stillHeld == (held && !Replaces(backend, old(leads)[k], now, e))
    {
      TickIsDeliver(backend, leads[k], now, e, held);
      var lead := leads[k];
      assert leads == leads[k := lead];
      if lead.state !in {NEW, ATTEMPTING_CONTACT} {
        return NotEligible, held;
      }
      if lead.offsets == [] {
        return NoPlan, held;
      }
      var attemptsSoFar := |lead.deliveries|;
      if attemptsSoFar >= |lead.offsets| {
        var parked := Transition(lead.state, MAX_ATTEMPTS_REACHED);
        if parked == None {
          return NotExhaustible, held;
        }
        if held {
          leads := leads[k := lead.(state := parked.value)];
        }
        return Exhausted, held;
      }
      if now - lead.createdAt < SortedOffsets(lead)[attemptsSoFar] * MINUTE {
        return NotDue, held;
      }
      var lastFailure := LastFailure(lead.attempts);
      if lastFailure.Some? {
        if lastFailure.value.failureClass != Some(TRANSIENT) {
          return HeldForFailure, held;
        }
        if lastFailure.value.retryAfter.Some? && lastFailure.value.retryAfter.value > now {
          return InBackoff, held;
        }
        if lastFailure.value.retryAfter == None {
          return HeldForFailure, held;
        }
      }
      if e.engaged {
        return HeldForEngagement, held;
      }
      if !e.ready {
        return HeldForChannel, held;
      }
      result := DeliverOutreach(k, now, e, held);
      stillHeld := held;
      if backend == Database && e.channel == VOICE && e.conversational && result in {Delivered, SendFailed} {
        stillHeld := false;
      }
    }

    // A provider's report on the i-th attempt of the k-th lead.
    method ApplyDeliveryUpdate(k: nat, i: nat, incoming: Outcome, cls: FailureClass, optOut: bool) returns (applied: bool)
      requires k < |leads| && i < |leads[k].attempts| && leads[k].attempts[i].channel != VOICE
      modifies this
      ensures leads == old(leads)[k := Callback(old(leads)[k], i, incoming, cls, optOut)]
      ensures applied == ShouldApply(old(leads)[k].attempts[i].outcome, incoming)
    {
      var lead := leads[k];
      assert leads == leads[k := lead];
      var attempt := lead.attempts[i];
      if !ShouldApply(attempt.outcome, incoming) {
        return false;
      }
      attempt := attempt.(outcome := incoming);
      if incoming == UNDELIVERED || incoming == FAILED {
        attempt := attempt.(failureClass := Some(cls));
        lead := lead.(attemptsTotal := Max(0, lead.attemptsTotal - 1));
        if attempt.channel == SMS && optOut && lead.state !in TERMINAL_STATES {
          lead := lead.(state := SUPPRESSED);
        }
      }
      leads := leads[k := lead.(attempts := lead.attempts[i := attempt])];
      return true;
    }

    method RunCadenceTick(now: int, env: nat -> Env) returns (summary: Summary)
      modifies this
      ensures leads == TickAll(backend, old(leads), now, env)
      ensures summary == Tally(backend, old(leads), now, env)
    {
      summary := IDLE;
      ghost var start := leads;
      var held := true;
      for i := 0 to |leads|
        invariant |leads| == |start| && Between(backend, start, now, env, i, leads, held, summary)
      {
        TickAllStep(backend, start, now, env, i, leads, held, summary);
        var result: Result;
        result, held := TickLead(i, now, env(i), held);
        summary := Noted(summary, result);
      }
      TickAllEnd(backend, start, now, env, leads, held, summary);
    }
  }
}
