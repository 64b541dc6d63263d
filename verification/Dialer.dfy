/** The power dialer (dialingQueue.ts, dialingSessions.ts, actions.ts). Sessions and items are named by
    their place in creation order, which stands for their fresh ids. With the database a save puts new
    objects in place of all that are stored, and what is still written to the old ones is lost. */
module Dialer {
  import opened Common
  import opened Sorting
  import DeliveryStatus

  datatype ItemStatus = PENDING | CALLING | COMPLETED | BLOCKED | FAILED | SKIPPED
  datatype Mode = MANUAL_NEXT | AUTO_SEQUENTIAL
  datatype SessionStatus = ACTIVE | PAUSED | DONE | CANCELLED
  datatype CallStatus = QUEUED | RINGING | CONNECTED | ENDED

  datatype Item = Item(session: nat, position: nat, status: ItemStatus)
  datatype Session = Session(mode: Mode, status: SessionStatus, current: Option<nat>)

  // dialed is what the carrier was asked to call, in order.
  datatype State = State(sessions: seq<Session>, items: seq<Item>, dialed: seq<nat>)

  type Outcome = DeliveryStatus.Outcome

  // What is on record about an item's call: the attempt's outcome and the live call's status.
  datatype Call = Call(outcome: Option<Outcome>, live: Option<CallStatus>)
  datatype Placed = Started | Refused | Failure

  // What a step finds outside the queue, item by item. Placing a conversational call saves the store.
  datatype Env = Env(calls: nat -> Call, leadExists: nat -> bool, place: nat -> Placed, conversational: nat -> bool)

  const SETTLED_OUTCOMES: set<Outcome> :=
    {Outcome.ANSWERED, Outcome.NO_ANSWER, Outcome.BUSY, Outcome.VOICEMAIL, Outcome.FAILED, Outcome.BLOCKED, Outcome.UNDELIVERED}

  predicate CallItemHasSettled(c: Call) {
    if c.live.Some? then c.live.value == ENDED
    else c.outcome.Some? && c.outcome.value in SETTLED_OUTCOMES
  }

  function SettledStatus(c: Call): ItemStatus {
    if c.outcome == Some(Outcome.FAILED) then FAILED
    else if c.outcome == Some(Outcome.BLOCKED) then BLOCKED
    else COMPLETED
  }

  function SetItem(s: State, i: nat, status: ItemStatus): State
    requires i < |s.items|
  {
    s.(items := s.items[i := s.items[i].(status := status)])
  }

  function SetSession(s: State, k: nat, session: Session): State
    requires k < |s.sessions|
  {
    s.(sessions := s.sessions[k := session])
  }

  function Reconciled(s: State, k: nat, e: Env): (r: State)
    requires k < |s.sessions|
    ensures |r.sessions| == |s.sessions|
  {
    var session := s.sessions[k];
    if session.current == None then s
    else
      var i := session.current.value;
      if i >= |s.items| || s.items[i].status != CALLING then SetSession(s, k, session.(current := None))
      else if CallItemHasSettled(e.calls(i)) then
        SetSession(SetItem(s, i, SettledStatus(e.calls(i))), k, session.(current := None))
      else s
  }

  function Pending(items: seq<Item>, k: nat, n: nat): seq<nat>
    requires n <= |items|
  {
    if n == 0 then []
    else Pending(items, k, n - 1) + (if items[n - 1].session == k && items[n - 1].status == PENDING then [n - 1] else [])
  }

  function ByPosition(items: seq<Item>): nat -> int {
    (i: nat) => if i < |items| then items[i].position else 0
  }

  // filter, sort by position, take the first
  function NextPendingDialItem(s: State, k: nat): Option<nat> {
    var queue := SortBy(Pending(s.items, k, |s.items|), ByPosition(s.items));
    if queue == [] then None else Some(queue[0])
  }

  lemma {:induction false} PendingIs(items: seq<Item>, k: nat, n: nat)
    requires n <= |items|
    ensures forall i: nat :: i in Pending(items, k, n) <==> i < n && items[i].session == k && items[i].status == PENDING
  {
    if n > 0 {
      PendingIs(items, k, n - 1);
    }
  }

  // The next item is the pending one in the lowest position; there is none exactly when none is pending.
  lemma NextIsLowest(s: State, k: nat)
    ensures match NextPendingDialItem(s, k)
            case None => forall i :: 0 <= i < |s.items| && s.items[i].session == k ==> s.items[i].status != PENDING
            case Some(n) =>
              && n < |s.items| && s.items[n].session == k && s.items[n].status == PENDING
              && forall i :: 0 <= i < |s.items| && s.items[i].session == k && s.items[i].status == PENDING ==>
                   s.items[n].position <= s.items[i].position
  {
    var pending := Pending(s.items, k, |s.items|);
    PendingIs(s.items, k, |s.items|);
    if pending != [] {
      FirstIsLeast(pending, ByPosition(s.items));
    }
    forall i | 0 <= i < |s.items| && s.items[i].session == k && s.items[i].status == PENDING
      ensures pending != [] && s.items[NextPendingDialItem(s, k).value].position <= s.items[i].position
    {
      var n: nat := i;
      assert n in pending;
      assert ByPosition(s.items)(NextPendingDialItem(s, k).value) <= ByPosition(s.items)(n);
    }
  }

  // ----- the operations

  function NewItems(session: nat, leads: nat): (r: seq<Item>)
    ensures |r| == leads
    ensures forall p :: 0 <= p < leads ==> r[p] == Item(session, p, PENDING)
  {
    seq(leads, p requires 0 <= p => Item(session, p, PENDING))
  }

  // leads distinct ones among the requested references
  function Created(s: State, mode: Mode, requested: nat, leads: nat): State {
    if leads == 0 || requested > 50 then s
    else s.(sessions := s.sessions + [Session(mode, ACTIVE, None)], items := s.items + NewItems(|s.sessions|, leads))
  }

  // The gate and the preflight refuse before the carrier is asked.
  function Asked(s: State, i: nat, e: Env): State {
    if e.place(i) == Refused then s else s.(dialed := s.dialed + [i])
  }

  // Dialing the next lead by hand, once the current call is known to be over or there is none.
  function ManuallyDialed(s: State, k: nat, e: Env): (r: State)
    requires k < |s.sessions|
    ensures |r.sessions| == |s.sessions|
  {
    var session := s.sessions[k];
    if session.mode != MANUAL_NEXT || session.status != ACTIVE || session.current.Some? then s
    else
      NextIsLowest(s, k);
      match NextPendingDialItem(s, k)
      case None => SetSession(s, k, session.(status := DONE))
      case Some(i) =>
        if !e.leadExists(i) then SetItem(s, i, FAILED)
        else if e.place(i) == Started then SetSession(SetItem(Asked(s, i, e), i, CALLING), k, session.(current := Some(i)))
        else SetItem(Asked(s, i, e), i, BLOCKED)
  }

  function Advanced(s: State, k: nat, e: Env): (r: State)
    requires k < |s.sessions|
    ensures |r.sessions| == |s.sessions|
  {
    ManuallyDialed(Reconciled(s, k, e), k, e)
  }

  datatype Operation = SKIP_NEXT | PAUSE | RESUME | CANCEL

  function Skipped(s: State, k: nat): (r: State)
    requires k < |s.sessions|
    ensures |r.sessions| == |s.sessions|
  {
    if s.sessions[k].current.Some? then s
    else
      NextIsLowest(s, k);
      match NextPendingDialItem(s, k)
      case None => s
      case Some(i) => SetItem(s, i, SKIPPED)
  }

  function Cancelled(s: State, k: nat): (r: State)
    requires k < |s.sessions|
    ensures |r.sessions| == |s.sessions|
  {
    s.(sessions := s.sessions[k := s.sessions[k].(status := CANCELLED)],
       items := seq(|s.items|, i requires 0 <= i < |s.items| =>
         if s.items[i].session == k && s.items[i].status == PENDING then s.items[i].(status := SKIPPED) else s.items[i]))
  }

  // PAUSE applies whatever the status, so a finished list can be paused and then resumed.
  function Changed(s: State, k: nat, op: Operation): (r: State)
    requires k < |s.sessions|
    ensures |r.sessions| == |s.sessions|
  {
    match op
    case SKIP_NEXT => Skipped(s, k)
    case PAUSE => SetSession(s, k, s.sessions[k].(status := PAUSED))
    case RESUME => if s.sessions[k].status in {DONE, CANCELLED} then s else SetSession(s, k, s.sessions[k].(status := ACTIVE))
    case CANCEL => Cancelled(s, k)
  }

  function Updated(s: State, k: nat, op: Operation, e: Env): (r: State)
    requires k < |s.sessions|
    ensures |r.sessions| == |s.sessions|
  {
    Changed(Reconciled(s, k, e), k, op)
  }

  predicate AnyCalling(s: State) {
    exists i :: 0 <= i < |s.items| && s.items[i].status == CALLING
  }

  predicate SavesInside(e: Env, i: nat) {
    e.conversational(i) && e.place(i) != Refused
  }

  // The tick keeps the session objects it picked; held says whether they are still the stored ones.
  function SetHeld(s: State, k: nat, session: Session, held: bool): (r: State)
    requires k < |s.sessions|
    ensures |r.sessions| == |s.sessions|
  {
    if held then SetSession(s, k, session) else s
  }

  // One session's turn in the automated tick, after its call was found over. A save inside the placement
  // replaces the item and the session before they are marked.
  function AutoDialed(b: Backend, s: State, k: nat, e: Env, held: bool): (r: State)
    requires k < |s.sessions|
    ensures |r.sessions| == |s.sessions|
  {
    NextIsLowest(s, k);
    match NextPendingDialItem(s, k)
    case None => SetHeld(s, k, s.sessions[k].(status := DONE), held)
    case Some(i) =>
      if !e.leadExists(i) then SetItem(s, i, FAILED)
      else if b == Database && SavesInside(e, i) then Asked(s, i, e)
      else if e.place(i) == Started then
        SetHeld(SetItem(Asked(s, i, e), i, CALLING), k, s.sessions[k].(current := Some(i)), held)
      else SetItem(Asked(s, i, e), i, if e.place(i) == Refused then BLOCKED else FAILED)
  }

  // What is stored of a reconciliation on an object that may not be the stored one: the item's part.
  function HeldReconciled(s: State, k: nat, e: Env, held: bool): (r: State)
    requires k < |s.sessions|
    ensures |r.sessions| == |s.sessions|
  {
    if held then Reconciled(s, k, e) else Reconciled(s, k, e).(sessions := s.sessions)
  }

  // The session has no call, or its call is over.
  predicate IsFree(s: State, k: nat, e: Env)
    requires k < |s.sessions|
  {
    Reconciled(s, k, e).sessions[k].current == None
  }

  // One session's turn, and whether the tick ends with it: it has no call, but somebody else has.
  function Turn(b: Backend, s: State, k: nat, e: Env, held: bool): (r: State)
    requires k < |s.sessions|
    ensures |r.sessions| == |s.sessions|
  {
    var r := HeldReconciled(s, k, e, held);
    if !IsFree(s, k, e) || AnyCalling(r) then r else AutoDialed(b, r, k, e, held)
  }

  predicate EndsTick(s: State, k: nat, e: Env)
    requires k < |s.sessions|
  {
    IsFree(s, k, e) && AnyCalling(Reconciled(s, k, e))
  }

  // The item this turn dials, if it gets so far as to ask the gate.
  function Dials(s: State, k: nat, e: Env): Option<nat>
    requires k < |s.sessions|
  {
    var next := NextPendingDialItem(Reconciled(s, k, e), k);
    if IsFree(s, k, e) && !AnyCalling(Reconciled(s, k, e)) && next.Some? && e.leadExists(next.value) then next else None
  }

  // After a dial the loop saves.
  predicate HeldAfter(b: Backend, s: State, k: nat, e: Env, held: bool)
    requires k < |s.sessions|
  {
    held && !(b == Database && Dials(s, k, e).Some?)
  }

  // The sessions picked for this tick, in turn.
  function AutoTicked(b: Backend, s: State, picked: seq<nat>, e: Env, held: bool): (r: State)
    requires forall n :: 0 <= n < |picked| ==> picked[n] < |s.sessions|
    ensures |r.sessions| == |s.sessions|
    decreases |picked|
  {
    if picked == [] then s
    else if EndsTick(s, picked[0], e) then Turn(b, s, picked[0], e, held)
    else AutoTicked(b, Turn(b, s, picked[0], e, held), picked[1..], e, HeldAfter(b, s, picked[0], e, held))
  }

  // The active automated sessions, oldest first.
  function Automated(sessions: seq<Session>, n: nat): seq<nat>
    requires n <= |sessions|
  {
    if n == 0 then []
    else
      var s := sessions[n - 1];
      Automated(sessions, n - 1) + (if s.mode == AUTO_SEQUENTIAL && s.status == ACTIVE then [n - 1] else [])
  }

  function Picked(s: State, limit: nat): seq<nat> {
    var all := Automated(s.sessions, |s.sessions|);
    all[..Min(limit, |all|)]
  }

  lemma {:induction false} AutomatedIs(sessions: seq<Session>, n: nat)
    requires n <= |sessions|
    ensures forall m :: 0 <= m < |Automated(sessions, n)| ==>
      Automated(sessions, n)[m] < n && sessions[Automated(sessions, n)[m]].mode == AUTO_SEQUENTIAL
    ensures forall l, m :: 0 <= l < m < |Automated(sessions, n)| ==> Automated(sessions, n)[l] < Automated(sessions, n)[m]
  {
    if n > 0 {
      AutomatedIs(sessions, n - 1);
    }
  }

  lemma {:induction false} AutomatedAreActive(sessions: seq<Session>, n: nat, k: nat)
    requires n <= |sessions| && k < |sessions| && sessions[k].status != ACTIVE
    ensures k !in Automated(sessions, n)
  {
    if n > 0 {
      AutomatedAreActive(sessions, n - 1, k);
    }
  }

  // ----- what every run keeps, with either backend

  // A session's current item is one of its own.
  ghost predicate CurrentIsOwn(s: State) {
    && (forall i :: 0 <= i < |s.items| ==> s.items[i].session < |s.sessions|)
    && (forall k :: 0 <= k < |s.sessions| && s.sessions[k].current.Some? ==>
          s.sessions[k].current.value < |s.items| && s.items[s.sessions[k].current.value].session == k)
  }

  // Two items of automated sessions are never marked as being called.
  ghost predicate OneAutomatedCall(s: State) {
    && (forall i :: 0 <= i < |s.items| ==> s.items[i].session < |s.sessions|)
    && (forall i, j :: 0 <= i < j < |s.items| && s.items[i].status == CALLING && s.items[j].status == CALLING ==>
          s.sessions[s.items[i].session].mode == MANUAL_NEXT || s.sessions[s.items[j].session].mode == MANUAL_NEXT)
  }

  // Within a session positions are distinct, and everything taken lies before everything pending.
  ghost predicate InSequence(s: State) {
    forall i, j :: 0 <= i < |s.items| && 0 <= j < |s.items| && i != j && s.items[i].session == s.items[j].session ==>
      && s.items[i].position != s.items[j].position
      && (s.items[i].status != PENDING && s.items[j].status == PENDING ==> s.items[i].position < s.items[j].position)
  }

  ghost predicate Inv(s: State) {
    CurrentIsOwn(s) && OneAutomatedCall(s) && InSequence(s)
  }

  function Stage(status: ItemStatus): nat {
    match status
    case PENDING => 0
    case CALLING => 1
    case _ => 2
  }

  // Items and sessions are never removed, a list never grows, and an item only moves forward: it never
  // waits again, and once settled stays as it is.
  ghost predicate ItemsForward(s: State, t: State) {
    && |s.items| <= |t.items| && |s.sessions| <= |t.sessions|
    && (forall k :: 0 <= k < |s.sessions| ==> t.sessions[k].mode == s.sessions[k].mode)
    && (forall i :: |s.items| <= i < |t.items| ==> t.items[i].session >= |s.sessions|)
    && forall i :: 0 <= i < |s.items| ==>
         && t.items[i].session == s.items[i].session && t.items[i].position == s.items[i].position
         && Stage(s.items[i].status) <= Stage(t.items[i].status)
         && (Stage(s.items[i].status) == 2 ==> t.items[i] == s.items[i])
  }

  // Only items that wait are dialed.
  ghost predicate DialsForward(s: State, t: State) {
    && |s.dialed| <= |t.dialed| && t.dialed[..|s.dialed|] == s.dialed
    && forall n :: |s.dialed| <= n < |t.dialed| ==>
         t.dialed[n] < |t.items| && (t.dialed[n] < |s.items| ==> s.items[t.dialed[n]].status == PENDING)
  }

  ghost predicate Forward(s: State, t: State) {
    ItemsForward(s, t) && DialsForward(s, t)
  }

  ghost predicate Lowest(s: State, i: nat)
    requires i < |s.items|
  {
    forall j :: 0 <= j < |s.items| && s.items[j].session == s.items[i].session && s.items[j].status == PENDING ==>
      s.items[i].position <= s.items[j].position
  }

  // The ways an item moves on, apart from cancelling.
  ghost predicate MayMove(s: State, i: nat, status: ItemStatus) {
    && i < |s.items| && s.items[i].session < |s.sessions|
    && Stage(s.items[i].status) < Stage(status)
    && (s.items[i].status == PENDING ==> Lowest(s, i))
    && (status == CALLING && s.sessions[s.items[i].session].mode == AUTO_SEQUENTIAL ==> !AnyCalling(s))
  }

  lemma ForwardTwice(s: State, t: State, u: State)
    requires Forward(s, t) && Forward(t, u)
    ensures Forward(s, u)
  {
    assert u.dialed[..|s.dialed|] == u.dialed[..|t.dialed|][..|s.dialed|];
    forall n | |s.dialed| <= n < |u.dialed| && u.dialed[n] < |s.items| ensures s.items[u.dialed[n]].status == PENDING {
      if n < |t.dialed| {
        assert u.dialed[n] == u.dialed[..|t.dialed|][n] == t.dialed[n];
      }
    }
    forall n | |s.dialed| <= n < |u.dialed| ensures u.dialed[n] < |u.items| {
      if n < |t.dialed| {
        assert u.dialed[n] == u.dialed[..|t.dialed|][n] == t.dialed[n];
      }
    }
  }

  lemma MovedKeepsOne(s: State, i: nat, status: ItemStatus)
    requires OneAutomatedCall(s) && MayMove(s, i, status)
    ensures OneAutomatedCall(SetItem(s, i, status))
  {
    var t := SetItem(s, i, status);
    forall a, b | 0 <= a < b < |t.items| && t.items[a].status == CALLING && t.items[b].status == CALLING
      ensures t.sessions[t.items[a].session].mode == MANUAL_NEXT || t.sessions[t.items[b].session].mode == MANUAL_NEXT
    {
      assert a != i ==> s.items[a].status == CALLING;
      assert b != i ==> s.items[b].status == CALLING;
    }
  }

  lemma MovedKeepsSequence(s: State, i: nat, status: ItemStatus)
    requires InSequence(s) && MayMove(s, i, status)
    ensures InSequence(SetItem(s, i, status))
  {
    var t := SetItem(s, i, status);
    forall a, b | 0 <= a < |t.items| && 0 <= b < |t.items| && a != b && t.items[a].session == t.items[b].session
      ensures t.items[a].position != t.items[b].position
      ensures t.items[a].status != PENDING && t.items[b].status == PENDING ==> t.items[a].position < t.items[b].position
    {
      assert s.items[a].position != s.items[b].position;
    }
  }

  // The one way an item moves on, whatever becomes of its session.
  lemma MovedKeeps(s: State, i: nat, status: ItemStatus)
    requires Inv(s) && MayMove(s, i, status)
    ensures Inv(SetItem(s, i, status)) && Forward(s, SetItem(s, i, status))
  {
    MovedKeepsOne(s, i, status);
    MovedKeepsSequence(s, i, status);
  }

  lemma SessionKeeps(s: State, k: nat, session: Session)
    requires Inv(s) && k < |s.sessions| && session.mode == s.sessions[k].mode
    requires session.current.Some? ==> session.current.value < |s.items| && s.items[session.current.value].session == k
    ensures Inv(SetSession(s, k, session)) && Forward(s, SetSession(s, k, session))
  {
  }

  lemma SameQueueKeeps(s: State, t: State)
    requires Inv(s) && t.sessions == s.sessions && t.items == s.items
    ensures Inv(t) && ItemsForward(s, t)
  {
  }

  lemma AskedKeeps(s: State, i: nat, e: Env)
    requires Inv(s) && i < |s.items| && s.items[i].status == PENDING
    ensures Inv(Asked(s, i, e)) && Forward(s, Asked(s, i, e))
    ensures Asked(s, i, e).items == s.items && Asked(s, i, e).sessions == s.sessions
  {
    var t := Asked(s, i, e);
    SameQueueKeeps(s, t);
    assert t.dialed[..|s.dialed|] == s.dialed;
  }

  // The item's part of a reconciliation.
  lemma SettledKeeps(s: State, k: nat, e: Env)
    requires Inv(s) && k < |s.sessions|
    ensures var t := HeldReconciled(s, k, e, false); Inv(t) && Forward(s, t)
  {
    if s.sessions[k].current.Some? {
      var i := s.sessions[k].current.value;
      if s.items[i].status == CALLING && CallItemHasSettled(e.calls(i)) {
        MovedKeeps(s, i, SettledStatus(e.calls(i)));
        assert HeldReconciled(s, k, e, false) == SetItem(s, i, SettledStatus(e.calls(i)));
      } else {
        assert HeldReconciled(s, k, e, false) == s;
      }
    }
  }

  lemma ReconciledKeeps(s: State, k: nat, e: Env, held: bool)
    requires Inv(s) && k < |s.sessions|
    ensures Inv(HeldReconciled(s, k, e, held)) && Forward(s, HeldReconciled(s, k, e, held))
  {
    SettledKeeps(s, k, e);
    if held {
      var t, session := HeldReconciled(s, k, e, false), Reconciled(s, k, e).sessions[k];
      ReconciledIs(s, k, e);
      SessionKeeps(t, k, session);
      ForwardTwice(s, t, SetSession(t, k, session));
    }
  }

  // The item's part and the session's part.
  lemma ReconciledIs(s: State, k: nat, e: Env)
    requires k < |s.sessions|
    ensures var t, session := HeldReconciled(s, k, e, false), Reconciled(s, k, e).sessions[k];
      && t.sessions == s.sessions && |t.items| == |s.items|
      && (session == s.sessions[k] || session == s.sessions[k].(current := None))
      && HeldReconciled(s, k, e, true) == SetSession(t, k, session)
      && forall i :: 0 <= i < |s.items| ==> t.items[i].session == s.items[i].session
  {
    assert s.sessions[k := s.sessions[k]] == s.sessions;
  }

  // The next item asked for and taken, in any way: only an automated session has to find nothing called.
  lemma TakenKeeps(s: State, k: nat, i: nat, status: ItemStatus, e: Env, asks: bool)
    requires Inv(s) && k < |s.sessions| && NextPendingDialItem(s, k) == Some(i) && status != PENDING
    requires status == CALLING && s.sessions[k].mode == AUTO_SEQUENTIAL ==> !AnyCalling(s)
    ensures i < |s.items| && s.items[i].session == k
    ensures var t := SetItem(if asks then Asked(s, i, e) else s, i, status); Inv(t) && Forward(s, t)
  {
    NextIsLowest(s, k);
    MayMoveNext(s, k, i, status);
    if asks {
      var a := Asked(s, i, e);
      AskedKeeps(s, i, e);
      SameQueueMoves(s, a, i, status);
      MovedKeeps(a, i, status);
      ForwardTwice(s, a, SetItem(a, i, status));
    } else {
      MovedKeeps(s, i, status);
    }
  }

  lemma MayMoveNext(s: State, k: nat, i: nat, status: ItemStatus)
    requires CurrentIsOwn(s) && k < |s.sessions| && NextPendingDialItem(s, k) == Some(i) && status != PENDING
    requires status == CALLING && s.sessions[k].mode == AUTO_SEQUENTIAL ==> !AnyCalling(s)
    ensures MayMove(s, i, status)
  {
    NextIsLowest(s, k);
  }

  lemma SameQueueMoves(s: State, t: State, i: nat, status: ItemStatus)
    requires t.sessions == s.sessions && t.items == s.items && MayMove(s, i, status)
    ensures MayMove(t, i, status)
  {
    assert AnyCalling(t) == AnyCalling(s);
  }

  // ... and its session pointed at it.
  lemma StartedKeeps(s: State, k: nat, i: nat, e: Env)
    requires Inv(s) && k < |s.sessions| && NextPendingDialItem(s, k) == Some(i)
    requires s.sessions[k].mode == AUTO_SEQUENTIAL ==> !AnyCalling(s)
    ensures i < |s.items|
    ensures var t := SetSession(SetItem(Asked(s, i, e), i, CALLING), k, s.sessions[k].(current := Some(i))); Inv(t) && Forward(s, t)
  {
    TakenKeeps(s, k, i, CALLING, e, true);
    var t := SetItem(Asked(s, i, e), i, CALLING);
    SessionKeeps(t, k, s.sessions[k].(current := Some(i)));
    ForwardTwice(s, t, SetSession(t, k, s.sessions[k].(current := Some(i))));
  }

  lemma CreatedKeeps(s: State, mode: Mode, requested: nat, leads: nat)
    requires Inv(s)
    ensures Inv(Created(s, mode, requested, leads)) && Forward(s, Created(s, mode, requested, leads))
  {
    if leads != 0 && requested <= 50 {
      CreatedIs(s, mode, requested, leads);
      CreatedKeepsOne(s, mode, requested, leads);
      CreatedKeepsSequence(s, mode, requested, leads);
    }
  }

  // A new list: its items wait, and nothing else is different.
  lemma CreatedIs(s: State, mode: Mode, requested: nat, leads: nat)
    requires leads != 0 && requested <= 50
    ensures var t := Created(s, mode, requested, leads);
      && |t.items| == |s.items| + leads && |t.sessions| == |s.sessions| + 1 && t.dialed == s.dialed
      && (forall i :: 0 <= i < |s.items| ==> t.items[i] == s.items[i])
      && (forall i :: |s.items| <= i < |t.items| ==> t.items[i] == Item(|s.sessions|, i - |s.items|, PENDING))
      && (forall k :: 0 <= k < |s.sessions| ==> t.sessions[k] == s.sessions[k])
      && t.sessions[|s.sessions|] == Session(mode, ACTIVE, None)
  {
  }

  lemma CreatedKeepsOne(s: State, mode: Mode, requested: nat, leads: nat)
    requires OneAutomatedCall(s) && leads != 0 && requested <= 50
    ensures OneAutomatedCall(Created(s, mode, requested, leads))
  {
    var t := Created(s, mode, requested, leads);
    CreatedIs(s, mode, requested, leads);
    forall i, j | 0 <= i < j < |t.items| && t.items[i].status == CALLING && t.items[j].status == CALLING
      ensures t.sessions[t.items[i].session].mode == MANUAL_NEXT || t.sessions[t.items[j].session].mode == MANUAL_NEXT
    {
      assert i < |s.items| && j < |s.items|;
    }
  }

  lemma CreatedKeepsSequence(s: State, mode: Mode, requested: nat, leads: nat)
    requires CurrentIsOwn(s) && InSequence(s) && leads != 0 && requested <= 50
    ensures InSequence(Created(s, mode, requested, leads))
  {
    var t := Created(s, mode, requested, leads);
    CreatedIs(s, mode, requested, leads);
    forall i, j | 0 <= i < |t.items| && 0 <= j < |t.items| && i != j && t.items[i].session == t.items[j].session
      ensures t.items[i].position != t.items[j].position
      ensures t.items[i].status != PENDING && t.items[j].status == PENDING ==> t.items[i].position < t.items[j].position
    {
      assert i < |s.items| <==> t.items[i].session < |s.sessions|;
      assert j < |s.items| <==> t.items[j].session < |s.sessions|;
    }
  }

  lemma ManuallyDialedKeeps(s: State, k: nat, e: Env)
    requires Inv(s) && k < |s.sessions|
    ensures Inv(ManuallyDialed(s, k, e)) && Forward(s, ManuallyDialed(s, k, e))
  {
    var session := s.sessions[k];
    if session.mode == MANUAL_NEXT && session.status == ACTIVE && session.current == None {
      match NextPendingDialItem(s, k)
      case None => SessionKeeps(s, k, session.(status := DONE));
      case Some(i) =>
        if e.leadExists(i) && e.place(i) == Started {
          StartedKeeps(s, k, i, e);
        } else {
          TakenKeeps(s, k, i, if e.leadExists(i) then BLOCKED else FAILED, e, e.leadExists(i));
        }
    }
  }

  lemma AdvancedKeeps(s: State, k: nat, e: Env)
    requires Inv(s) && k < |s.sessions|
    ensures Inv(Advanced(s, k, e)) && Forward(s, Advanced(s, k, e))
  {
    var r := Reconciled(s, k, e);
    ReconciledKeeps(s, k, e, true);
    ManuallyDialedKeeps(r, k, e);
    ForwardTwice(s, r, ManuallyDialed(r, k, e));
  }

  lemma CancelledIs(s: State, k: nat)
    requires k < |s.sessions|
    ensures var t := Cancelled(s, k);
      && |t.items| == |s.items| && t.dialed == s.dialed
      && (forall i :: 0 <= i < |s.items| ==>
            t.items[i] == if s.items[i].session == k && s.items[i].status == PENDING then s.items[i].(status := SKIPPED) else s.items[i])
      && (forall l :: 0 <= l < |s.sessions| ==> t.sessions[l].current == s.sessions[l].current && t.sessions[l].mode == s.sessions[l].mode)
  {
  }

  lemma CancelledKeeps(s: State, k: nat)
    requires Inv(s) && k < |s.sessions|
    ensures Inv(Cancelled(s, k)) && Forward(s, Cancelled(s, k))
  {
    CancelledIs(s, k);
    CancelledKeepsSequence(s, k);
    CancelledKeepsOne(s, k);
  }

  lemma CancelledKeepsOne(s: State, k: nat)
    requires OneAutomatedCall(s) && k < |s.sessions|
    ensures OneAutomatedCall(Cancelled(s, k))
  {
    var t := Cancelled(s, k);
    CancelledIs(s, k);
    forall i, j | 0 <= i < j < |t.items| && t.items[i].status == CALLING && t.items[j].status == CALLING
      ensures t.sessions[t.items[i].session].mode == MANUAL_NEXT || t.sessions[t.items[j].session].mode == MANUAL_NEXT
    {
      assert s.items[i].status == CALLING && s.items[j].status == CALLING;
    }
  }

  lemma CancelledKeepsSequence(s: State, k: nat)
    requires InSequence(s) && k < |s.sessions|
    ensures InSequence(Cancelled(s, k))
  {
    var t := Cancelled(s, k);
    CancelledIs(s, k);
    forall i, j | 0 <= i < |t.items| && 0 <= j < |t.items| && i != j && t.items[i].session == t.items[j].session
      ensures t.items[i].position != t.items[j].position
      ensures t.items[i].status != PENDING && t.items[j].status == PENDING ==> t.items[i].position < t.items[j].position
    {
      assert s.items[i].position != s.items[j].position;
    }
  }

  lemma ChangedKeeps(s: State, k: nat, op: Operation, e: Env)
    requires Inv(s) && k < |s.sessions|
    ensures Inv(Changed(s, k, op)) && Forward(s, Changed(s, k, op))
  {
    match op
    case SKIP_NEXT =>
      if s.sessions[k].current == None && NextPendingDialItem(s, k).Some? {
        TakenKeeps(s, k, NextPendingDialItem(s, k).value, SKIPPED, e, false);
      }
    case PAUSE => SessionKeeps(s, k, s.sessions[k].(status := PAUSED));
    case RESUME => SessionKeeps(s, k, s.sessions[k].(status := ACTIVE));
    case CANCEL => CancelledKeeps(s, k);
  }

  lemma UpdatedKeeps(s: State, k: nat, op: Operation, e: Env)
    requires Inv(s) && k < |s.sessions|
    ensures Inv(Updated(s, k, op, e)) && Forward(s, Updated(s, k, op, e))
  {
    var r := Reconciled(s, k, e);
    ReconciledKeeps(s, k, e, true);
    ChangedKeeps(r, k, op, e);
    ForwardTwice(s, r, Changed(r, k, op));
  }

  lemma AutoDialedKeeps(b: Backend, s: State, k: nat, e: Env, held: bool)
    requires Inv(s) && k < |s.sessions| && !AnyCalling(s)
    ensures Inv(AutoDialed(b, s, k, e, held)) && Forward(s, AutoDialed(b, s, k, e, held))
  {
    NextIsLowest(s, k);
    match NextPendingDialItem(s, k)
    case None => SessionKeeps(s, k, s.sessions[k].(status := DONE));
    case Some(i) =>
      if !e.leadExists(i) {
        TakenKeeps(s, k, i, FAILED, e, false);
      } else if b == Database && SavesInside(e, i) {
        AskedKeeps(s, i, e);
      } else if e.place(i) != Started {
        TakenKeeps(s, k, i, if e.place(i) == Refused then BLOCKED else FAILED, e, true);
      } else if held {
        StartedKeeps(s, k, i, e);
      } else {
        TakenKeeps(s, k, i, CALLING, e, true);
      }
  }

  lemma TurnKeeps(b: Backend, s: State, k: nat, e: Env, held: bool)
    requires Inv(s) && k < |s.sessions|
    ensures Inv(Turn(b, s, k, e, held)) && Forward(s, Turn(b, s, k, e, held))
  {
    var r := HeldReconciled(s, k, e, held);
    ReconciledKeeps(s, k, e, held);
    if IsFree(s, k, e) && !AnyCalling(r) {
      AutoDialedKeeps(b, r, k, e, held);
      ForwardTwice(s, r, AutoDialed(b, r, k, e, held));
    }
  }

  lemma {:induction false} AutoTickedKeeps(b: Backend, s: State, picked: seq<nat>, e: Env, held: bool)
    requires Inv(s) && forall n :: 0 <= n < |picked| ==> picked[n] < |s.sessions|
    ensures Inv(AutoTicked(b, s, picked, e, held)) && Forward(s, AutoTicked(b, s, picked, e, held))
    decreases |picked|
  {
    if picked != [] {
      var t, after := Turn(b, s, picked[0], e, held), HeldAfter(b, s, picked[0], e, held);
      TurnKeeps(b, s, picked[0], e, held);
      if !EndsTick(s, picked[0], e) {
        AutoTickedKeeps(b, t, picked[1..], e, after);
        ForwardTwice(s, t, AutoTicked(b, t, picked[1..], e, after));
      }
    }
  }

  function Ticked(b: Backend, s: State, limit: nat, enabled: bool, e: Env): (r: State)
    ensures |r.sessions| == |s.sessions|
  {
    AutomatedIs(s.sessions, |s.sessions|);
    if enabled then AutoTicked(b, s, Picked(s, limit), e, true) else s
  }

  datatype Step =
    | Create(mode: Mode, requested: nat, leads: nat)
    | Advance(k: nat, e: Env)
    | Update(k: nat, op: Operation, e: Env)
    | Reconcile(k: nat, e: Env)
    | AutoTick(limit: nat, enabled: bool, e: Env)

  function Next(b: Backend, s: State, step: Step): State {
    match step
    case Create(mode, requested, leads) => Created(s, mode, requested, leads)
    case Advance(k, e) => if k < |s.sessions| then Advanced(s, k, e) else s
    case Update(k, op, e) => if k < |s.sessions| then Updated(s, k, op, e) else s
    case Reconcile(k, e) => if k < |s.sessions| then Reconciled(s, k, e) else s
    case AutoTick(limit, enabled, e) => Ticked(b, s, limit, enabled, e)
  }

  function Run(b: Backend, s: State, steps: seq<Step>): State
    decreases |steps|
  {
    if steps == [] then s else Run(b, Next(b, s, steps[0]), steps[1..])
  }

  const NOTHING := State([], [], [])

  lemma NextKeeps(b: Backend, s: State, step: Step)
    requires Inv(s)
    ensures Inv(Next(b, s, step)) && Forward(s, Next(b, s, step))
  {
    match step
    case Create(mode, requested, leads) => CreatedKeeps(s, mode, requested, leads);
    case Advance(k, e) => if k < |s.sessions| { AdvancedKeeps(s, k, e); } else { StayingKeeps(s); }
    case Update(k, op, e) => if k < |s.sessions| { UpdatedKeeps(s, k, op, e); } else { StayingKeeps(s); }
    case Reconcile(k, e) => if k < |s.sessions| { ReconciledKeeps(s, k, e, true); } else { StayingKeeps(s); }
    case AutoTick(limit, enabled, e) => TickedKeeps(b, s, limit, enabled, e);
  }

  lemma StayingKeeps(s: State)
    requires Inv(s)
    ensures Forward(s, s)
  {
  }

  lemma TickedKeeps(b: Backend, s: State, limit: nat, enabled: bool, e: Env)
    requires Inv(s)
    ensures Inv(Ticked(b, s, limit, enabled, e)) && Forward(s, Ticked(b, s, limit, enabled, e))
  {
    if enabled {
      AutomatedIs(s.sessions, |s.sessions|);
      AutoTickedKeeps(b, s, Picked(s, limit), e, true);
    } else {
      StayingKeeps(s);
    }
  }

  lemma {:induction false} RunKeeps(b: Backend, s: State, steps: seq<Step>)
    requires Inv(s)
    ensures Inv(Run(b, s, steps)) && Forward(s, Run(b, s, steps))
    decreases |steps|
  {
    if steps != [] {
      NextKeeps(b, s, steps[0]);
      RunKeeps(b, Next(b, s, steps[0]), steps[1..]);
      ForwardTwice(s, Next(b, s, steps[0]), Run(b, s, steps));
    }
  }

  // Over every run of every operation, with either backend: a session's current item is its own, at most
  // one item of all automated sessions together is marked as being called, items are taken in the order of
  // their positions, none waits again, and only items that wait are dialed.
  lemma EveryRunIsOrderly(b: Backend, before: seq<Step>, after: seq<Step>)
    ensures var s := Run(b, NOTHING, before);
      && CurrentIsOwn(s)
      && OneAutomatedCall(s)
      && InSequence(s)
      && Forward(s, Run(b, s, after))
  {
    RunKeeps(b, NOTHING, before);
    RunKeeps(b, Run(b, NOTHING, before), after);
  }

  // ----- when an item is marked CALLING exactly while it is its session's current one

  ghost predicate CurrentIsCalling(s: State) {
    && (forall i :: 0 <= i < |s.items| && s.items[i].status == CALLING ==>
          s.items[i].session < |s.sessions| && s.sessions[s.items[i].session].current == Some(i))
    && (forall k :: 0 <= k < |s.sessions| && s.sessions[k].current.Some? ==>
          s.sessions[k].current.value < |s.items| && s.items[s.sessions[k].current.value].status == CALLING)
  }

  // Session k has an item being called that is not its current one, or a current one not being called.
  ghost predicate Broken(s: State, k: nat) {
    && k < |s.sessions|
    && (|| (exists i: nat :: IsOrphan(s, k, i))
        || (s.sessions[k].current.Some? && s.sessions[k].current.value < |s.items| && s.items[s.sessions[k].current.value].status != CALLING))
  }

  predicate IsOrphan(s: State, k: nat, i: nat) {
    && k < |s.sessions| && i < |s.items| && s.items[i].session == k
    && s.items[i].status == CALLING && s.sessions[k].current != Some(i)
  }

  // This turn takes the session's call for over, or starts one, on an object that is not stored.
  predicate Drops(b: Backend, s: State, k: nat, e: Env, held: bool)
    requires k < |s.sessions|
  {
    && !held
    && (|| (s.sessions[k].current.Some? && IsFree(s, k, e))
        || (Dials(s, k, e).Some? && e.place(Dials(s, k, e).value) == Started && !(b == Database && SavesInside(e, Dials(s, k, e).value))))
  }

  predicate TickDrops(b: Backend, s: State, picked: seq<nat>, e: Env, held: bool)
    requires forall n :: 0 <= n < |picked| ==> picked[n] < |s.sessions|
    decreases |picked|
  {
    picked != [] &&
    (|| Drops(b, s, picked[0], e, held)
     || (!EndsTick(s, picked[0], e) && TickDrops(b, Turn(b, s, picked[0], e, held), picked[1..], e, HeldAfter(b, s, picked[0], e, held))))
  }

  lemma ReconciledIsCurrent(s: State, k: nat, e: Env)
    requires Inv(s) && CurrentIsCalling(s) && k < |s.sessions|
    ensures CurrentIsCalling(Reconciled(s, k, e))
  {
  }

  lemma StartedIsCurrent(s: State, k: nat, i: nat, e: Env)
    requires Inv(s) && CurrentIsCalling(s) && k < |s.sessions| && s.sessions[k].current == None && NextPendingDialItem(s, k) == Some(i)
    ensures i < |s.items|
    ensures CurrentIsCalling(SetSession(SetItem(Asked(s, i, e), i, CALLING), k, s.sessions[k].(current := Some(i))))
  {
    NextIsLowest(s, k);
  }

  lemma TakenIsCurrent(s: State, i: nat, status: ItemStatus, e: Env, asks: bool)
    requires CurrentIsCalling(s) && i < |s.items| && s.items[i].status == PENDING && status != CALLING
    ensures CurrentIsCalling(SetItem(if asks then Asked(s, i, e) else s, i, status))
  {
    var t := SetItem(if asks then Asked(s, i, e) else s, i, status);
    assert t.sessions == s.sessions && t.items == s.items[i := s.items[i].(status := status)];
  }

  lemma AutoDialedIsCurrent(b: Backend, s: State, k: nat, e: Env, held: bool)
    requires Inv(s) && CurrentIsCalling(s) && k < |s.sessions| && s.sessions[k].current == None
    requires var i := NextPendingDialItem(s, k);
             held || i == None || !e.leadExists(i.value) || e.place(i.value) != Started || (b == Database && SavesInside(e, i.value))
    ensures CurrentIsCalling(AutoDialed(b, s, k, e, held))
  {
    NextIsLowest(s, k);
    var next := NextPendingDialItem(s, k);
    if next.Some? {
      var i := next.value;
      if e.leadExists(i) && e.place(i) == Started {
        StartedIsCurrent(s, k, i, e);
      } else {
        TakenIsCurrent(s, i, if e.leadExists(i) && e.place(i) == Refused then BLOCKED else FAILED, e, e.leadExists(i));
      }
    }
  }

  lemma TurnIsCurrent(b: Backend, s: State, k: nat, e: Env, held: bool)
    requires Inv(s) && CurrentIsCalling(s) && k < |s.sessions| && !Drops(b, s, k, e, held)
    ensures CurrentIsCalling(Turn(b, s, k, e, held))
  {
    var r := HeldReconciled(s, k, e, held);
    ReconciledIsCurrent(s, k, e);
    ReconciledKeeps(s, k, e, held);
    assert r == Reconciled(s, k, e);
    if IsFree(s, k, e) && !AnyCalling(r) {
      AutoDialedIsCurrent(b, r, k, e, held);
    }
  }

  // What the next item is marked as.
  function DialedStatus(b: Backend, e: Env, i: nat): ItemStatus {
    if !e.leadExists(i) then FAILED
    else if b == Database && SavesInside(e, i) then PENDING
    else if e.place(i) == Started then CALLING
    else if e.place(i) == Refused then BLOCKED else FAILED
  }

  // Where a turn that takes the next item ends.
  lemma AutoDialedIs(b: Backend, s: State, k: nat, e: Env, held: bool)
    requires k < |s.sessions|
    ensures var t, next := AutoDialed(b, s, k, e, held), NextPendingDialItem(s, k);
      && (next.Some? ==> next.value < |s.items| && s.items[next.value].session == k && s.items[next.value].status == PENDING)
      && t.sessions == s.sessions[k := t.sessions[k]] && (!held ==> t.sessions == s.sessions)
      && t.items == (if next == None then s.items else s.items[next.value := s.items[next.value].(status := t.items[next.value].status)])
      && (next.Some? ==> t.items[next.value].status == DialedStatus(b, e, next.value))
      && t.dialed == (if next.Some? && e.leadExists(next.value) && e.place(next.value) != Refused then s.dialed + [next.value] else s.dialed)
  {
    NextIsLowest(s, k);
    var t := AutoDialed(b, s, k, e, held);
    assert s.sessions == s.sessions[k := s.sessions[k]];
    if NextPendingDialItem(s, k).Some? {
      var i := NextPendingDialItem(s, k).value;
      assert s.items == s.items[i := s.items[i].(status := PENDING)];
    }
  }

  lemma SettleDropBreaks(b: Backend, s: State, k: nat, e: Env)
    requires Inv(s) && CurrentIsCalling(s) && k < |s.sessions| && s.sessions[k].current.Some? && IsFree(s, k, e)
    ensures Broken(Turn(b, s, k, e, false), k)
  {
    var r, current := HeldReconciled(s, k, e, false), s.sessions[k].current.value;
    assert Stage(r.items[current].status) == 2;
    AutoDialedIs(b, r, k, e, false);
  }

  lemma StartDropBreaks(b: Backend, s: State, k: nat, e: Env)
    requires Inv(s) && CurrentIsCalling(s) && k < |s.sessions| && s.sessions[k].current == None && Drops(b, s, k, e, false)
    ensures Broken(Turn(b, s, k, e, false), k)
  {
    assert HeldReconciled(s, k, e, false) == s == Reconciled(s, k, e);
    AutoDialedIs(b, s, k, e, false);
    assert IsOrphan(Turn(b, s, k, e, false), k, Dials(s, k, e).value);
  }

  lemma DropBreaks(b: Backend, s: State, k: nat, e: Env, held: bool)
    requires Inv(s) && CurrentIsCalling(s) && k < |s.sessions| && Drops(b, s, k, e, held)
    ensures Broken(Turn(b, s, k, e, held), k)
  {
    if s.sessions[k].current.Some? {
      SettleDropBreaks(b, s, k, e);
    } else {
      StartDropBreaks(b, s, k, e);
    }
  }

  lemma ReconciledIsOwn(s: State, j: nat, k: nat, e: Env, held: bool)
    requires j < |s.sessions| && k < |s.sessions| && j != k
    ensures var t := HeldReconciled(s, j, e, held);
      && t.sessions[k] == s.sessions[k] && |t.items| == |s.items|
      && (CurrentIsOwn(s) ==> forall i :: 0 <= i < |s.items| && s.items[i].session == k ==> t.items[i] == s.items[i])
  {
  }

  // A turn touches its own session and that session's items only.
  lemma TurnIsOwn(b: Backend, s: State, j: nat, k: nat, e: Env, held: bool)
    requires j < |s.sessions| && k < |s.sessions| && j != k
    ensures var t := Turn(b, s, j, e, held);
      && t.sessions[k] == s.sessions[k] && |t.items| == |s.items|
      && (CurrentIsOwn(s) ==> forall i :: 0 <= i < |s.items| && s.items[i].session == k ==> t.items[i] == s.items[i])
  {
    ReconciledIsOwn(s, j, k, e, held);
    AutoDialedIs(b, HeldReconciled(s, j, e, held), j, e, held);
  }

  lemma TurnSparesBroken(b: Backend, s: State, j: nat, k: nat, e: Env, held: bool)
    requires CurrentIsOwn(s) && j < |s.sessions| && j != k && Broken(s, k)
    ensures Broken(Turn(b, s, j, e, held), k)
  {
    var t := Turn(b, s, j, e, held);
    TurnIsOwn(b, s, j, k, e, held);
    if i: nat :| IsOrphan(s, k, i) {
      assert IsOrphan(t, k, i);
    }
  }

  lemma {:induction false} TickSparesBroken(b: Backend, s: State, picked: seq<nat>, k: nat, e: Env, held: bool)
    requires Inv(s) && Broken(s, k) && forall n :: 0 <= n < |picked| ==> picked[n] < |s.sessions| && picked[n] != k
    ensures Broken(AutoTicked(b, s, picked, e, held), k)
    decreases |picked|
  {
    if picked != [] {
      TurnSparesBroken(b, s, picked[0], k, e, held);
      TurnKeeps(b, s, picked[0], e, held);
      if !EndsTick(s, picked[0], e) {
        TickSparesBroken(b, Turn(b, s, picked[0], e, held), picked[1..], k, e, HeldAfter(b, s, picked[0], e, held));
      }
    }
  }

  ghost predicate Increasing(picked: seq<nat>) {
    forall l, m :: 0 <= l < m < |picked| ==> picked[l] < picked[m]
  }

  lemma {:induction false} TickIsCurrentExactly(b: Backend, s: State, picked: seq<nat>, e: Env, held: bool)
    requires Inv(s) && CurrentIsCalling(s) && Increasing(picked) && forall n :: 0 <= n < |picked| ==> picked[n] < |s.sessions|
    ensures CurrentIsCalling(AutoTicked(b, s, picked, e, held)) <==> !TickDrops(b, s, picked, e, held)
    decreases |picked|
  {
    if picked != [] {
      var k, rest := picked[0], picked[1..];
      var t, after := Turn(b, s, k, e, held), HeldAfter(b, s, k, e, held);
      TurnKeeps(b, s, k, e, held);
      if Drops(b, s, k, e, held) {
        DropBreaks(b, s, k, e, held);
        if !EndsTick(s, k, e) {
          TickSparesBroken(b, t, rest, k, e, after);
        }
      } else {
        TurnIsCurrent(b, s, k, e, held);
        if !EndsTick(s, k, e) {
          TickIsCurrentExactly(b, t, rest, e, after);
        }
      }
    }
  }

  lemma PickedIs(s: State, limit: nat)
    ensures Increasing(Picked(s, limit)) && forall n :: 0 <= n < |Picked(s, limit)| ==> Picked(s, limit)[n] < |s.sessions|
  {
    AutomatedIs(s.sessions, |s.sessions|);
  }

  predicate StepDrops(b: Backend, s: State, step: Step) {
    PickedIs(s, if step.AutoTick? then step.limit else 0);
    step.AutoTick? && step.enabled && TickDrops(b, s, Picked(s, step.limit), step.e, true)
  }

  lemma CancelledIsCurrent(s: State, k: nat)
    requires CurrentIsCalling(s) && k < |s.sessions|
    ensures CurrentIsCalling(Cancelled(s, k))
  {
    CancelledIs(s, k);
  }

  lemma ChangedIsCurrent(s: State, k: nat, op: Operation)
    requires CurrentIsCalling(s) && k < |s.sessions|
    ensures CurrentIsCalling(Changed(s, k, op))
  {
    match op
    case SKIP_NEXT =>
      NextIsLowest(s, k);
      if s.sessions[k].current == None && NextPendingDialItem(s, k).Some? {
        var next := NextPendingDialItem(s, k).value;
        SkippedIsCurrent(s, next);
      }
    case PAUSE => StatusIsCurrent(s, k, PAUSED);
    case RESUME => StatusIsCurrent(s, k, ACTIVE);
    case CANCEL => CancelledIsCurrent(s, k);
  }

  lemma SkippedIsCurrent(s: State, i: nat)
    requires CurrentIsCalling(s) && i < |s.items| && s.items[i].status == PENDING
    ensures CurrentIsCalling(SetItem(s, i, SKIPPED))
  {
  }

  lemma StatusIsCurrent(s: State, k: nat, status: SessionStatus)
    requires CurrentIsCalling(s) && k < |s.sessions|
    ensures CurrentIsCalling(SetSession(s, k, s.sessions[k].(status := status)))
  {
  }

  lemma ManuallyDialedIsCurrent(s: State, k: nat, e: Env)
    requires Inv(s) && CurrentIsCalling(s) && k < |s.sessions|
    ensures CurrentIsCalling(ManuallyDialed(s, k, e))
  {
    NextIsLowest(s, k);
    var next := NextPendingDialItem(s, k);
    if s.sessions[k].current == None && next.Some? {
      if e.leadExists(next.value) && e.place(next.value) == Started {
        StartedIsCurrent(s, k, next.value, e);
      } else {
        TakenIsCurrent(s, next.value, if e.leadExists(next.value) then BLOCKED else FAILED, e, e.leadExists(next.value));
      }
    }
  }

  lemma CreatedIsCurrent(s: State, mode: Mode, requested: nat, leads: nat)
    requires CurrentIsCalling(s)
    ensures CurrentIsCalling(Created(s, mode, requested, leads))
  {
    if leads != 0 && requested <= 50 {
      CreatedIs(s, mode, requested, leads);
    }
  }

  lemma NextIsCurrentExactly(b: Backend, s: State, step: Step)
    requires Inv(s) && CurrentIsCalling(s)
    ensures CurrentIsCalling(Next(b, s, step)) <==> !StepDrops(b, s, step)
  {
    match step
    case Create(mode, requested, leads) => CreatedIsCurrent(s, mode, requested, leads);
    case Advance(k, e) =>
      if k < |s.sessions| {
        ReconciledKeeps(s, k, e, true);
        ReconciledIsCurrent(s, k, e);
        ManuallyDialedIsCurrent(Reconciled(s, k, e), k, e);
      }
    case Update(k, op, e) =>
      if k < |s.sessions| {
        ReconciledIsCurrent(s, k, e);
        ChangedIsCurrent(Reconciled(s, k, e), k, op);
      }
    case Reconcile(k, e) =>
      if k < |s.sessions| {
        ReconciledIsCurrent(s, k, e);
      }
    case AutoTick(limit, enabled, e) =>
      PickedIs(s, limit);
      TickIsCurrentExactly(b, s, Picked(s, limit), e, true);
  }

  ghost predicate AlwaysCurrent(b: Backend, s: State, steps: seq<Step>)
    decreases |steps|
  {
    CurrentIsCalling(s) && (steps == [] || AlwaysCurrent(b, Next(b, s, steps[0]), steps[1..]))
  }

  predicate DropsNothing(b: Backend, s: State, steps: seq<Step>)
    decreases |steps|
  {
    steps == [] || (!StepDrops(b, s, steps[0]) && DropsNothing(b, Next(b, s, steps[0]), steps[1..]))
  }

  // Over every run: an item is CALLING exactly while it is its session's current one, all along, if and
  // only if no tick of the run has a turn, after a dial in the same tick, in which a session's call is
  // found to be over or a call is started that is not conversational.
  lemma {:induction false} AlwaysCurrentExactly(b: Backend, s: State, steps: seq<Step>)
    requires Inv(s) && CurrentIsCalling(s)
    ensures AlwaysCurrent(b, s, steps) <==> DropsNothing(b, s, steps)
    decreases |steps|
  {
    if steps != [] {
      NextKeeps(b, s, steps[0]);
      NextIsCurrentExactly(b, s, steps[0]);
      if !StepDrops(b, s, steps[0]) {
        AlwaysCurrentExactly(b, Next(b, s, steps[0]), steps[1..]);
      }
    }
  }

  lemma EveryRunFromNothing(b: Backend, steps: seq<Step>)
    ensures AlwaysCurrent(b, NOTHING, steps) <==> DropsNothing(b, NOTHING, steps)
  {
    AlwaysCurrentExactly(b, NOTHING, steps);
  }

  lemma {:induction false} FileHolds(s: State, picked: seq<nat>, e: Env)
    requires forall n :: 0 <= n < |picked| ==> picked[n] < |s.sessions|
    ensures !TickDrops(LocalFile, s, picked, e, true)
    decreases |picked|
  {
    if picked != [] && !EndsTick(s, picked[0], e) {
      FileHolds(Turn(LocalFile, s, picked[0], e, true), picked[1..], e);
    }
  }

  // With the local file nothing is ever dropped.
  lemma {:induction false} FileDropsNothing(s: State, steps: seq<Step>)
    ensures DropsNothing(LocalFile, s, steps)
    decreases |steps|
  {
    if steps != [] {
      if steps[0].AutoTick? {
        PickedIs(s, steps[0].limit);
        FileHolds(s, Picked(s, steps[0].limit), steps[0].e);
      }
      FileDropsNothing(Next(LocalFile, s, steps[0]), steps[1..]);
    }
  }

  // ----- what an item left CALLING does to the dialer

  // An item being called that is nobody's current one.
  ghost predicate HasOrphan(s: State, k: nat, i: nat) {
    CurrentIsOwn(s) && IsOrphan(s, k, i)
  }

  ghost predicate OnlyByHand(s: State, t: State) {
    && |s.dialed| <= |t.dialed|
    && forall n :: |s.dialed| <= n < |t.dialed| ==>
         t.dialed[n] < |t.items| && t.items[t.dialed[n]].session < |t.sessions| && t.sessions[t.items[t.dialed[n]].session].mode == MANUAL_NEXT
  }

  lemma ReconciledKeepsOrphan(s: State, j: nat, e: Env, held: bool, k: nat, i: nat)
    requires HasOrphan(s, k, i) && j < |s.sessions|
    ensures HasOrphan(HeldReconciled(s, j, e, held), k, i)
    ensures HeldReconciled(s, j, e, held).dialed == s.dialed && AnyCalling(HeldReconciled(s, j, e, held))
  {
    var t := HeldReconciled(s, j, e, held);
    assert t.items[i].status == CALLING;
  }

  lemma {:induction false} TickKeepsOrphan(b: Backend, s: State, picked: seq<nat>, e: Env, held: bool, k: nat, i: nat)
    requires HasOrphan(s, k, i) && forall n :: 0 <= n < |picked| ==> picked[n] < |s.sessions|
    ensures var t := AutoTicked(b, s, picked, e, held); HasOrphan(t, k, i) && t.dialed == s.dialed
    decreases |picked|
  {
    if picked != [] {
      ReconciledKeepsOrphan(s, picked[0], e, held, k, i);
      ReconciledKeepsOrphan(s, picked[0], e, true, k, i);
      assert Turn(b, s, picked[0], e, held) == HeldReconciled(s, picked[0], e, held);
      if !EndsTick(s, picked[0], e) {
        TickKeepsOrphan(b, Turn(b, s, picked[0], e, held), picked[1..], e, HeldAfter(b, s, picked[0], e, held), k, i);
      }
    }
  }

  // Another item moves on.
  lemma OtherKeepsOrphan(s: State, j: nat, status: ItemStatus, k: nat, i: nat)
    requires HasOrphan(s, k, i) && j < |s.items| && s.items[j].status == PENDING
    ensures HasOrphan(SetItem(s, j, status), k, i)
  {
  }

  // A session changes, its current item at most to one of its own that was waiting.
  lemma SessionKeepsOrphan(s: State, j: nat, session: Session, k: nat, i: nat)
    requires HasOrphan(s, k, i) && j < |s.sessions|
    requires session.current == s.sessions[j].current ||
      (session.current.Some? && session.current.value < |s.items| && s.items[session.current.value].session == j && session.current.value != i)
    ensures HasOrphan(SetSession(s, j, session), k, i)
  {
  }

  lemma ManualKeepsOrphan(s: State, j: nat, e: Env, k: nat, i: nat)
    requires HasOrphan(s, k, i) && j < |s.sessions|
    ensures HasOrphan(ManuallyDialed(s, j, e), k, i) && OnlyByHand(s, ManuallyDialed(s, j, e))
  {
    NextIsLowest(s, j);
    SessionKeepsOrphan(s, j, s.sessions[j].(status := DONE), k, i);
    var next := NextPendingDialItem(s, j);
    if next.Some? {
      OtherKeepsOrphan(s, next.value, FAILED, k, i);
      DialedKeepsOrphan(s, j, next.value, e, k, i);
    }
  }

  lemma DialedKeepsOrphan(s: State, j: nat, n: nat, e: Env, k: nat, i: nat)
    requires HasOrphan(s, k, i) && j < |s.sessions| && n < |s.items| && s.items[n].session == j && s.items[n].status == PENDING
    ensures HasOrphan(SetItem(Asked(s, n, e), n, BLOCKED), k, i)
    ensures HasOrphan(SetSession(SetItem(Asked(s, n, e), n, CALLING), j, s.sessions[j].(current := Some(n))), k, i)
  {
    var a := Asked(s, n, e);
    assert HasOrphan(a, k, i);
    OtherKeepsOrphan(a, n, BLOCKED, k, i);
    OtherKeepsOrphan(a, n, CALLING, k, i);
    SessionKeepsOrphan(SetItem(a, n, CALLING), j, s.sessions[j].(current := Some(n)), k, i);
  }

  lemma ChangedKeepsOrphan(s: State, j: nat, op: Operation, k: nat, i: nat)
    requires HasOrphan(s, k, i) && j < |s.sessions|
    ensures HasOrphan(Changed(s, j, op), k, i) && Changed(s, j, op).dialed == s.dialed
  {
    match op
    case SKIP_NEXT =>
      NextIsLowest(s, j);
      if NextPendingDialItem(s, j).Some? {
        OtherKeepsOrphan(s, NextPendingDialItem(s, j).value, SKIPPED, k, i);
      }
    case PAUSE => SessionKeepsOrphan(s, j, s.sessions[j].(status := PAUSED), k, i);
    case RESUME => SessionKeepsOrphan(s, j, s.sessions[j].(status := ACTIVE), k, i);
    case CANCEL => CancelledIs(s, j);
  }

  lemma NextKeepsOrphan(b: Backend, s: State, step: Step, k: nat, i: nat)
    requires HasOrphan(s, k, i)
    ensures HasOrphan(Next(b, s, step), k, i) && OnlyByHand(s, Next(b, s, step))
  {
    match step
    case Create(mode, requested, leads) =>
      if leads != 0 && requested <= 50 {
        CreatedIs(s, mode, requested, leads);
      }
    case Advance(j, e) =>
      if j < |s.sessions| {
        ReconciledKeepsOrphan(s, j, e, true, k, i);
        ManualKeepsOrphan(Reconciled(s, j, e), j, e, k, i);
      }
    case Update(j, op, e) =>
      if j < |s.sessions| {
        ReconciledKeepsOrphan(s, j, e, true, k, i);
        ChangedKeepsOrphan(Reconciled(s, j, e), j, op, k, i);
      }
    case Reconcile(j, e) =>
      if j < |s.sessions| {
        ReconciledKeepsOrphan(s, j, e, true, k, i);
      }
    case AutoTick(limit, enabled, e) =>
      PickedIs(s, limit);
      TickKeepsOrphan(b, s, Picked(s, limit), e, true, k, i);
  }

  // Once an item is CALLING without being its session's current one, it stays so over every run, and no
  // automated session ever dials again.
  lemma {:induction false} OrphanIsForever(b: Backend, s: State, steps: seq<Step>, k: nat, i: nat)
    requires Inv(s) && HasOrphan(s, k, i)
    ensures HasOrphan(Run(b, s, steps), k, i) && OnlyByHand(s, Run(b, s, steps))
    decreases |steps|
  {
    if steps != [] {
      var t := Next(b, s, steps[0]);
      NextKeepsOrphan(b, s, steps[0], k, i);
      NextKeeps(b, s, steps[0]);
      OrphanIsForever(b, t, steps[1..], k, i);
      RunKeeps(b, t, steps[1..]);
      HandTwice(s, t, Run(b, t, steps[1..]));
    }
  }

  lemma HandTwice(s: State, t: State, u: State)
    requires OnlyByHand(s, t) && OnlyByHand(t, u) && Forward(t, u)
    ensures OnlyByHand(s, u)
  {
    forall n | |s.dialed| <= n < |t.dialed| ensures u.dialed[n] == t.dialed[n] {
      assert u.dialed[n] == u.dialed[..|t.dialed|][n];
    }
  }

  // ----- when no item is dialed twice

  // Whatever was dialed waits no more.
  ghost predicate DialedIsTaken(s: State) {
    forall n :: 0 <= n < |s.dialed| ==> s.dialed[n] < |s.items| && s.items[s.dialed[n]].status != PENDING
  }

  ghost predicate NoneTwice(dialed: seq<nat>) {
    forall m, n :: 0 <= m < n < |dialed| ==> dialed[m] != dialed[n]
  }

  // This turn places a conversational call.
  predicate Converses(b: Backend, s: State, k: nat, e: Env)
    requires k < |s.sessions|
  {
    b == Database && Dials(s, k, e).Some? && SavesInside(e, Dials(s, k, e).value)
  }

  predicate TickConverses(b: Backend, s: State, picked: seq<nat>, e: Env, held: bool)
    requires forall n :: 0 <= n < |picked| ==> picked[n] < |s.sessions|
    decreases |picked|
  {
    picked != [] &&
    (|| Converses(b, s, picked[0], e)
     || (!EndsTick(s, picked[0], e) && TickConverses(b, Turn(b, s, picked[0], e, held), picked[1..], e, HeldAfter(b, s, picked[0], e, held))))
  }

  // Session k has an item that was dialed and waits.
  ghost predicate WaitsAgain(s: State, k: nat) {
    exists n :: 0 <= n < |s.dialed| && s.dialed[n] < |s.items| && s.items[s.dialed[n]].session == k && s.items[s.dialed[n]].status == PENDING
  }

  ghost predicate Tidy(s: State) {
    DialedIsTaken(s) && NoneTwice(s.dialed)
  }

  // Without a dial: items moved forward leave it tidy.
  lemma ForwardIsTidy(s: State, t: State)
    requires Tidy(s) && Forward(s, t) && t.dialed == s.dialed
    ensures Tidy(t)
  {
  }

  lemma TakenIsTidy(s: State, k: nat, i: nat, status: ItemStatus, e: Env, asks: bool)
    requires Tidy(s) && NextPendingDialItem(s, k) == Some(i) && status != PENDING
    ensures i < |s.items| && Tidy(SetItem(if asks then Asked(s, i, e) else s, i, status))
  {
    NextIsLowest(s, k);
  }

  lemma AutoDialedIsTidyExactly(b: Backend, s: State, k: nat, e: Env, held: bool)
    requires Tidy(s) && k < |s.sessions|
    ensures var i := NextPendingDialItem(s, k);
            var converses := b == Database && i.Some? && e.leadExists(i.value) && SavesInside(e, i.value);
      && (!converses ==> Tidy(AutoDialed(b, s, k, e, held)))
      && (converses ==> WaitsAgain(AutoDialed(b, s, k, e, held), k))
  {
    AutoDialedIs(b, s, k, e, held);
    var t, next := AutoDialed(b, s, k, e, held), NextPendingDialItem(s, k);
    if next == None || !e.leadExists(next.value) || e.place(next.value) == Refused {
      MarkedIsTidy(s, t, if next.Some? then next.value else 0);
    } else {
      DialedOneMore(s, t, k, next.value);
    }
  }

  // At most an item that waited is marked otherwise, and nothing is dialed.
  lemma MarkedIsTidy(s: State, t: State, i: nat)
    requires Tidy(s) && t.dialed == s.dialed && |t.items| == |s.items|
    requires i < |s.items| && s.items[i].status == PENDING ==> t.items == s.items[i := t.items[i]]
    requires !(i < |s.items| && s.items[i].status == PENDING) ==> t.items == s.items
    ensures Tidy(t)
  {
  }

  // An item that waited is dialed.
  lemma DialedOneMore(s: State, t: State, k: nat, i: nat)
    requires Tidy(s) && i < |s.items| && s.items[i].status == PENDING && s.items[i].session == k
    requires t.dialed == s.dialed + [i] && |t.items| == |s.items| && t.items == s.items[i := t.items[i]] && t.items[i].session == k
    ensures t.items[i].status != PENDING ==> Tidy(t)
    ensures t.items[i].status == PENDING ==> WaitsAgain(t, k)
  {
    assert t.dialed[|s.dialed|] == i;
  }

  lemma SameItems(s: State, k: nat, e: Env, held: bool)
    requires k < |s.sessions|
    ensures var r, t := HeldReconciled(s, k, e, held), Reconciled(s, k, e);
      && r.items == t.items && r.dialed == s.dialed
      && NextPendingDialItem(r, k) == NextPendingDialItem(t, k) && AnyCalling(r) == AnyCalling(t)
  {
  }

  lemma TurnIsTidyExactly(b: Backend, s: State, k: nat, e: Env, held: bool)
    requires Inv(s) && Tidy(s) && k < |s.sessions|
    ensures !Converses(b, s, k, e) ==> Tidy(Turn(b, s, k, e, held))
    ensures Converses(b, s, k, e) ==> WaitsAgain(Turn(b, s, k, e, held), k)
  {
    var r := HeldReconciled(s, k, e, held);
    ReconciledKeeps(s, k, e, held);
    SameItems(s, k, e, held);
    ForwardIsTidy(s, r);
    if IsFree(s, k, e) && !AnyCalling(r) {
      AutoDialedIsTidyExactly(b, r, k, e, held);
    } else {
      assert Dials(s, k, e) == None;
    }
  }

  lemma {:induction false} TickSparesWaiting(b: Backend, s: State, picked: seq<nat>, k: nat, e: Env, held: bool)
    requires Inv(s) && k < |s.sessions| && WaitsAgain(s, k) && forall n :: 0 <= n < |picked| ==> picked[n] < |s.sessions| && picked[n] != k
    ensures WaitsAgain(AutoTicked(b, s, picked, e, held), k)
    decreases |picked|
  {
    if picked != [] {
      var t := Turn(b, s, picked[0], e, held);
      TurnIsOwn(b, s, picked[0], k, e, held);
      TurnKeeps(b, s, picked[0], e, held);
      var n :| 0 <= n < |s.dialed| && s.dialed[n] < |s.items| && s.items[s.dialed[n]].session == k && s.items[s.dialed[n]].status == PENDING;
      assert t.dialed[n] == t.dialed[..|s.dialed|][n] == s.dialed[n];
      assert WaitsAgain(t, k);
      if !EndsTick(s, picked[0], e) {
        TickSparesWaiting(b, t, picked[1..], k, e, HeldAfter(b, s, picked[0], e, held));
      }
    }
  }

  lemma {:induction false} TickIsTidyExactly(b: Backend, s: State, picked: seq<nat>, e: Env, held: bool)
    requires Inv(s) && Tidy(s) && Increasing(picked) && forall n :: 0 <= n < |picked| ==> picked[n] < |s.sessions|
    ensures Tidy(AutoTicked(b, s, picked, e, held)) <==> !TickConverses(b, s, picked, e, held)
    decreases |picked|
  {
    if picked != [] {
      var k, rest := picked[0], picked[1..];
      var t, after := Turn(b, s, k, e, held), HeldAfter(b, s, k, e, held);
      TurnKeeps(b, s, k, e, held);
      TurnIsTidyExactly(b, s, k, e, held);
      if !EndsTick(s, k, e) {
        if Converses(b, s, k, e) {
          TickSparesWaiting(b, t, rest, k, e, after);
        } else {
          TickIsTidyExactly(b, t, rest, e, after);
        }
      }
    }
  }

  predicate StepConverses(b: Backend, s: State, step: Step) {
    PickedIs(s, if step.AutoTick? then step.limit else 0);
    step.AutoTick? && step.enabled && TickConverses(b, s, Picked(s, step.limit), step.e, true)
  }

  lemma ManuallyDialedIsTidy(s: State, k: nat, e: Env)
    requires Tidy(s) && k < |s.sessions|
    ensures Tidy(ManuallyDialed(s, k, e))
  {
    NextIsLowest(s, k);
    if NextPendingDialItem(s, k).Some? {
      var i := NextPendingDialItem(s, k).value;
      TakenIsTidy(s, k, i, CALLING, e, true);
      TakenIsTidy(s, k, i, BLOCKED, e, true);
      TakenIsTidy(s, k, i, FAILED, e, false);
    }
  }

  lemma AdvancedIsTidy(s: State, k: nat, e: Env)
    requires Inv(s) && Tidy(s) && k < |s.sessions|
    ensures Tidy(Advanced(s, k, e))
  {
    ReconciledKeeps(s, k, e, true);
    ForwardIsTidy(s, Reconciled(s, k, e));
    ManuallyDialedIsTidy(Reconciled(s, k, e), k, e);
  }

  lemma NextIsTidyExactly(b: Backend, s: State, step: Step)
    requires Inv(s) && Tidy(s)
    ensures Tidy(Next(b, s, step)) <==> !StepConverses(b, s, step)
  {
    NextKeeps(b, s, step);
    match step
    case Create(mode, requested, leads) => ForwardIsTidy(s, Next(b, s, step));
    case Advance(k, e) => if k < |s.sessions| { AdvancedIsTidy(s, k, e); }
    case Update(k, op, e) => ForwardIsTidy(s, Next(b, s, step));
    case Reconcile(k, e) => ForwardIsTidy(s, Next(b, s, step));
    case AutoTick(limit, enabled, e) =>
      PickedIs(s, limit);
      TickIsTidyExactly(b, s, Picked(s, limit), e, true);
  }

  ghost predicate AlwaysTidy(b: Backend, s: State, steps: seq<Step>)
    decreases |steps|
  {
    Tidy(s) && (steps == [] || AlwaysTidy(b, Next(b, s, steps[0]), steps[1..]))
  }

  predicate NeverConverses(b: Backend, s: State, steps: seq<Step>)
    decreases |steps|
  {
    steps == [] || (!StepConverses(b, s, steps[0]) && NeverConverses(b, Next(b, s, steps[0]), steps[1..]))
  }

  // Over every run: whatever was dialed waits no more and nothing was dialed twice, all along, if and only
  // if no tick places a conversational call with the database.
  lemma {:induction false} AlwaysTidyExactly(b: Backend, s: State, steps: seq<Step>)
    requires Inv(s) && Tidy(s)
    ensures AlwaysTidy(b, s, steps) <==> NeverConverses(b, s, steps)
    decreases |steps|
  {
    if steps != [] {
      NextKeeps(b, s, steps[0]);
      NextIsTidyExactly(b, s, steps[0]);
      if !StepConverses(b, s, steps[0]) {
        AlwaysTidyExactly(b, Next(b, s, steps[0]), steps[1..]);
      }
    }
  }

  lemma EveryDialFromNothing(b: Backend, steps: seq<Step>)
    ensures AlwaysTidy(b, NOTHING, steps) <==> NeverConverses(b, NOTHING, steps)
  {
    AlwaysTidyExactly(b, NOTHING, steps);
  }

  function Times(dialed: seq<nat>, i: nat, n: nat): seq<nat>
    decreases n
  {
    if n == 0 then dialed else Times(dialed + [i], i, n - 1)
  }

  function Again(step: Step, n: nat): (steps: seq<Step>)
    ensures |steps| == n
  {
    if n == 0 then [] else [step] + Again(step, n - 1)
  }

  // The failing family: with the database a conversational call placed for the first session picked leaves
  // no mark on the queue, so every further tick that finds things as they are places it again.
  lemma {:induction false} ConversationIsRedialed(s: State, limit: nat, k: nat, e: Env, n: nat)
    requires Picked(s, limit) == [k] && k < |s.sessions| && s.sessions[k].current == None
    requires Dials(s, k, e).Some? && SavesInside(e, Dials(s, k, e).value)
    ensures Run(Database, s, Again(AutoTick(limit, true, e), n)) == s.(dialed := Times(s.dialed, Dials(s, k, e).value, n))
    decreases n
  {
    if n > 0 {
      var i, step := Dials(s, k, e).value, AutoTick(limit, true, e);
      var t := Next(Database, s, step);
      assert t == s.(dialed := s.dialed + [i]) by {
        assert HeldReconciled(s, k, e, true) == s;
        assert [k][1..] == [];
        assert AutoTicked(Database, s, [k], e, true) == Turn(Database, s, k, e, true);
      }
      assert Dials(t, k, e) == Dials(s, k, e);
      ConversationIsRedialed(t, limit, k, e, n - 1);
      assert Again(step, n)[1..] == Again(step, n - 1);
    }
  }

  // ----- cancelling

  ghost predicate NothingWaits(s: State, k: nat) {
    k < |s.sessions| && forall i :: 0 <= i < |s.items| && s.items[i].session == k ==> s.items[i].status != PENDING
  }

  // From s on, no item of session k is dialed: in t none waits, and none is on a call that was not.
  ghost predicate NoneDialed(s: State, t: State, k: nat) {
    && (forall i :: 0 <= i < |t.items| && t.items[i].session == k ==>
          i < |s.items| && t.items[i].status != PENDING && (t.items[i].status == CALLING ==> s.items[i].status == CALLING))
    && (forall n :: |s.dialed| <= n < |t.dialed| ==> t.dialed[n] < |t.items| && t.items[t.dialed[n]].session != k)
  }

  lemma CancelLeavesNothing(s: State, k: nat, e: Env)
    requires k < |s.sessions|
    ensures NothingWaits(Updated(s, k, CANCEL, e), k)
  {
    CancelledIs(Reconciled(s, k, e), k);
  }

  lemma NothingIsDialed(s: State, t: State, k: nat)
    requires Inv(s) && NothingWaits(s, k) && Forward(s, t)
    ensures NoneDialed(s, t, k)
  {
  }

  // Cancelling ends a list for good, even if it is paused and resumed afterwards.
  lemma CancelledIsNeverDialed(b: Backend, before: seq<Step>, k: nat, e: Env, after: seq<Step>)
    requires k < |Run(b, NOTHING, before).sessions|
    ensures var s := Updated(Run(b, NOTHING, before), k, CANCEL, e);
            k < |s.sessions| && NoneDialed(s, Run(b, s, after), k)
  {
    var s := Run(b, NOTHING, before);
    RunKeeps(b, NOTHING, before);
    UpdatedKeeps(s, k, CANCEL, e);
    CancelLeavesNothing(s, k, e);
    var cancelled := Updated(s, k, CANCEL, e);
    RunKeeps(b, cancelled, after);
    NothingIsDialed(cancelled, Run(b, cancelled, after), k);
  }

  // ----- when a COMPLETED session (DONE here) becomes anything else

  predicate Reopens(step: Step, k: nat) {
    step.Update? && step.k == k && step.op in {PAUSE, CANCEL}
  }

  lemma {:induction false} OtherTurns(b: Backend, s: State, picked: seq<nat>, k: nat, e: Env, held: bool)
    requires k < |s.sessions| && forall n :: 0 <= n < |picked| ==> picked[n] < |s.sessions| && picked[n] != k
    ensures k < |AutoTicked(b, s, picked, e, held).sessions| && AutoTicked(b, s, picked, e, held).sessions[k] == s.sessions[k]
    decreases |picked|
  {
    if picked != [] {
      TurnIsOwn(b, s, picked[0], k, e, held);
      if !EndsTick(s, picked[0], e) {
        OtherTurns(b, Turn(b, s, picked[0], e, held), picked[1..], k, e, HeldAfter(b, s, picked[0], e, held));
      }
    }
  }

  lemma DoneIsNotPicked(s: State, limit: nat, k: nat)
    requires k < |s.sessions| && s.sessions[k].status == DONE
    ensures forall n :: 0 <= n < |Picked(s, limit)| ==> Picked(s, limit)[n] != k
  {
    AutomatedAreActive(s.sessions, |s.sessions|, k);
    forall n | 0 <= n < |Picked(s, limit)| ensures Picked(s, limit)[n] != k {
      assert Picked(s, limit)[n] == Automated(s.sessions, |s.sessions|)[n];
    }
  }

  lemma TickSparesDone(b: Backend, s: State, limit: nat, enabled: bool, k: nat, e: Env)
    requires k < |s.sessions| && s.sessions[k].status == DONE
    ensures Ticked(b, s, limit, enabled, e).sessions[k] == s.sessions[k]
  {
    PickedIs(s, limit);
    DoneIsNotPicked(s, limit, k);
    OtherTurns(b, s, Picked(s, limit), k, e, true);
  }

  lemma AdvanceSparesDone(s: State, j: nat, k: nat, e: Env)
    requires j < |s.sessions| && k < |s.sessions| && s.sessions[k].status == DONE
    ensures Advanced(s, j, e).sessions[k].status == DONE
  {
    assert Reconciled(s, j, e).sessions[k].status == DONE;
    ManualDialSparesDone(Reconciled(s, j, e), j, k, e);
  }

  lemma ManualDialSparesDone(s: State, j: nat, k: nat, e: Env)
    requires j < |s.sessions| && k < |s.sessions| && s.sessions[k].status == DONE
    ensures ManuallyDialed(s, j, e).sessions[k].status == DONE
  {
    if j == k {
      assert ManuallyDialed(s, j, e) == s;
    } else {
      assert ManuallyDialed(s, j, e).sessions[k] == s.sessions[k];
    }
  }

  lemma UpdateOfDone(s: State, j: nat, op: Operation, k: nat, e: Env)
    requires j < |s.sessions| && k < |s.sessions| && s.sessions[k].status == DONE
    ensures Updated(s, j, op, e).sessions[k].status != DONE <==> j == k && op in {PAUSE, CANCEL}
  {
    var r := Reconciled(s, j, e);
    assert r.sessions[k].status == DONE;
  }

  // Whatever step is taken, a COMPLETED session is left exactly by pausing or cancelling that session.
  lemma DoneIsLeftExactly(b: Backend, s: State, step: Step, k: nat)
    requires k < |s.sessions| && s.sessions[k].status == DONE
    ensures k < |Next(b, s, step).sessions|
    ensures Next(b, s, step).sessions[k].status != DONE <==> Reopens(step, k)
  {
    match step
    case Create(mode, requested, leads) =>
    case Advance(j, e) =>
      if j < |s.sessions| {
        AdvanceSparesDone(s, j, k, e);
      }
    case Update(j, op, e) =>
      if j < |s.sessions| {
        UpdateOfDone(s, j, op, k, e);
      }
    case Reconcile(j, e) =>
    case AutoTick(limit, enabled, e) => TickSparesDone(b, s, limit, enabled, k, e);
  }

  // Over every run it stays COMPLETED all along exactly if no step of the run is one of those.
  lemma {:induction false} DoneStaysExactly(b: Backend, s: State, steps: seq<Step>, k: nat)
    requires k < |s.sessions| && s.sessions[k].status == DONE
    ensures AlwaysDone(b, s, steps, k) <==> forall n :: 0 <= n < |steps| ==> !Reopens(steps[n], k)
    decreases |steps|
  {
    if steps != [] {
      DoneIsLeftExactly(b, s, steps[0], k);
      if !Reopens(steps[0], k) {
        DoneStaysExactly(b, Next(b, s, steps[0]), steps[1..], k);
        assert forall n :: 1 <= n < |steps| ==> steps[n] == steps[1..][n - 1];
      }
    }
  }

  predicate AlwaysDone(b: Backend, s: State, steps: seq<Step>, k: nat)
    decreases |steps|
  {
    k < |s.sessions| && s.sessions[k].status == DONE && (steps == [] || AlwaysDone(b, Next(b, s, steps[0]), steps[1..], k))
  }

  // So COMPLETED is not the end: every COMPLETED session without a call is active again after a pause and
  // a resume, whatever its mode.
  lemma CompletedIsNotFinal(b: Backend, s: State, k: nat, e: Env)
    requires k < |s.sessions| && s.sessions[k].status == DONE && s.sessions[k].current == None
    ensures var t := Run(b, s, [Update(k, PAUSE, e), Update(k, RESUME, e)]);
            k < |t.sessions| && t.sessions[k] == s.sessions[k].(status := ACTIVE)
  {
    var steps := [Update(k, PAUSE, e), Update(k, RESUME, e)];
    var paused := Next(b, s, steps[0]);
    assert paused.sessions[k] == s.sessions[k].(status := PAUSED);
    assert steps[1..][1..] == [];
    assert Run(b, paused, steps[1..]) == Run(b, Next(b, paused, steps[1]), []);
  }

  // ----- progress of one session's items

  function CountWhere(items: seq<Item>, statuses: set<ItemStatus>): nat {
    if items == [] then 0
    else CountWhere(items[..|items| - 1], statuses) + (if items[|items| - 1].status in statuses then 1 else 0)
  }

  function Progress(items: seq<Item>): (nat, nat, int) {
    var completed := CountWhere(items, {COMPLETED, BLOCKED, FAILED, SKIPPED});
    (completed, |items|, |items| - completed)
  }

  // What remains is what waits or is being called: no record is hidden or counted twice.
  lemma {:induction false} RemainingIsUnsettled(items: seq<Item>)
    ensures Progress(items).2 == CountWhere(items, {PENDING, CALLING})
    ensures Progress(items).0 + Progress(items).2 == Progress(items).1
  {
    if items != [] {
      var front, last := items[..|items| - 1], items[|items| - 1];
      RemainingIsUnsettled(front);
      match last.status
      case PENDING =>
      case CALLING =>
      case _ =>
    }
  }

  class Queue {
    const backend: Backend
    var sessions: seq<Session>
    var items: seq<Item>
    var dialed: seq<nat>

    constructor (backend: Backend)
      ensures View() == NOTHING && this.backend == backend
    {
      this.backend := backend;
      sessions, items, dialed := [], [], [];
    }

    function View(): State
      reads this
    {
      State(sessions, items, dialed)
    }

    // Asks the carrier, unless the gate or the preflight refuses first.
    method Place(i: nat, e: Env) returns (placed: Placed)
      modifies this`dialed
      ensures placed == e.place(i) && View() == Asked(old(View()), i, e)
    {
      placed := e.place(i);
      if placed != Refused {
        dialed := dialed + [i];
      }
    }

    method CreateSession(mode: Mode, requested: nat, leads: nat) returns (ok: bool)
      modifies this
      ensures View() == Created(old(View()), mode, requested, leads)
      ensures ok == (leads >= 1 && requested <= 50)
    {
      if leads == 0 || requested > 50 {
        return false;
      }
      var k, before := |sessions|, items;
      sessions := sessions + [Session(mode, ACTIVE, None)];
      for p := 0 to leads
        invariant sessions == old(sessions) + [Session(mode, ACTIVE, None)] && dialed == old(dialed)
        invariant items == before + NewItems(k, p)
      {
        items := items + [Item(k, p, PENDING)];
      }
      return true;
    }

    method ReconcileSession(k: nat, e: Env)
      requires k < |sessions|
      modifies this
      ensures View() == Reconciled(old(View()), k, e)
    {
      var session := sessions[k];
      if session.current == None {
        return;
      }
      var i := session.current.value;
      if i >= |items| || items[i].status != CALLING {
        sessions := sessions[k := session.(current := None)];
      } else if CallItemHasSettled(e.calls(i)) {
        items := items[i := items[i].(status := SettledStatus(e.calls(i)))];
        sessions := sessions[k := session.(current := None)];
      }
    }

    method AdvanceSession(k: nat, e: Env)
      requires k < |sessions|
      modifies this
      ensures View() == Advanced(old(View()), k, e)
    {
      ReconcileSession(k, e);
      var session := sessions[k];
      if session.mode != MANUAL_NEXT || session.status != ACTIVE || session.current.Some? {
        return;
      }
      NextIsLowest(View(), k);
      var next := NextPendingDialItem(View(), k);
      if next == None {
        sessions := sessions[k := session.(status := DONE)];
      } else if !e.leadExists(next.value) {
        items := items[next.value := items[next.value].(status := FAILED)];
      } else {
        var placed := Place(next.value, e);
        if placed == Started {
          items := items[next.value := items[next.value].(status := CALLING)];
          sessions := sessions[k := session.(current := next)];
        } else {
          items := items[next.value := items[next.value].(status := BLOCKED)];
        }
      }
    }

    method UpdateSession(k: nat, op: Operation, e: Env)
      requires k < |sessions|
      modifies this
      ensures View() == Updated(old(View()), k, op, e)
    {
      ReconcileSession(k, e);
      var session := sessions[k];
      match op {
        case SKIP_NEXT =>
          if session.current == None {
            NextIsLowest(View(), k);
            var next := NextPendingDialItem(View(), k);
            if next.Some? {
              items := items[next.value := items[next.value].(status := SKIPPED)];
            }
          }
        case PAUSE => sessions := sessions[k := session.(status := PAUSED)];
        case RESUME =>
          if session.status !in {DONE, CANCELLED} {
            sessions := sessions[k := session.(status := ACTIVE)];
          }
        case CANCEL =>
          sessions := sessions[k := session.(status := CANCELLED)];
          var before := items;
          for i := 0 to |before|
            invariant |items| == |before| && dialed == old(dialed) && sessions == old(View()).sessions[k := session.(status := CANCELLED)]
            invariant forall j :: 0 <= j < |before| ==>
                        items[j] == (if j < i && before[j].session == k && before[j].status == PENDING then before[j].(status := SKIPPED) else before[j])
          {
            if items[i].session == k && items[i].status == PENDING {
              items := items[i := items[i].(status := SKIPPED)];
            }
          }
      }
    }

    // A turn's dial, and whether it got so far as to ask the gate. held says whether the session object the
    // tick works on is the stored one.
    method DialNext(k: nat, e: Env, held: bool) returns (asked: bool)
      requires k < |sessions|
      modifies this
      ensures View() == AutoDialed(backend, old(View()), k, e, held)
      ensures var next := NextPendingDialItem(old(View()), k); asked == (next.Some? && e.leadExists(next.value))
    {
      NextIsLowest(View(), k);
      var next := NextPendingDialItem(View(), k);
      if next == None {
        if held {
          sessions := sessions[k := sessions[k].(status := DONE)];
        }
        return false;
      }
      var i := next.value;
      if !e.leadExists(i) {
        items := items[i := items[i].(status := FAILED)];
        return false;
      }
      var placed := Place(i, e);
      if backend == Database && e.conversational(i) && placed != Refused {
        return true;
      }
      items := items[i := items[i].(status := if placed == Started then CALLING else if placed == Refused then BLOCKED else FAILED)];
      if placed == Started && held {
        sessions := sessions[k := sessions[k].(current := next)];
      }
      return true;
    }

    // held is updated by the save that follows a dial.
    method TakeTurn(k: nat, e: Env, held: bool) returns (ended: bool, stillHeld: bool)
      requires k < |sessions|
      modifies this
      ensures View() == Turn(backend, old(View()), k, e, held)
      ensures ended == EndsTick(old(View()), k, e) && stillHeld == HeldAfter(backend, old(View()), k, e, held)
    {
      var stored := sessions;
      ReconcileSession(k, e);
      var session := sessions[k];
      if !held {
        sessions := stored;
      }
      if session.current.Some? {
        return false, held;
      }
      if AnyCalling(View()) {
        return true, held;
      }
      var asked := DialNext(k, e, held);
      return false, held && !(backend == Database && asked);
    }

    method DialPicked(picked: seq<nat>, e: Env)
      requires forall n :: 0 <= n < |picked| ==> picked[n] < |sessions|
      modifies this
      ensures View() == AutoTicked(backend, old(View()), picked, e, true)
    {
      ghost var start := View();
      var held := true;
      for n := 0 to |picked|
        invariant |sessions| == |start.sessions|
        invariant AutoTicked(backend, View(), picked[n..], e, held) == AutoTicked(backend, start, picked, e, true)
      {
        ghost var rest := picked[n..];
        assert rest[0] == picked[n] && rest[1..] == picked[n + 1..];
        var ended: bool;
        ended, held := TakeTurn(picked[n], e, held);
        if ended {
          return;
        }
      }
    }

    method RunAutomated(limit: nat, enabled: bool, e: Env)
      modifies this
      ensures View() == Ticked(backend, old(View()), limit, enabled, e)
    {
      AutomatedIs(sessions, |sessions|);
      if enabled {
        DialPicked(Picked(View(), limit), e);
      }
    }
  }
}
