/** When a call of the power dialer is over (dialingQueue.ts, dialingSessions.ts), told from what is on record
    about the call, and what each step of the dialer then does. */
module DialerCalls {
  import opened Common
  import opened Dialer
  import DeliveryStatus

  // The live call decides where there is one: an attempt counts as answered while the borrower still talks.
  ghost predicate IsOver(c: Call) {
    || c.live == Some(ENDED)
    || (c.live == None
        && (|| c.outcome == Some(Outcome.ANSWERED) || c.outcome == Some(Outcome.NO_ANSWER) || c.outcome == Some(Outcome.BUSY)
            || c.outcome == Some(Outcome.VOICEMAIL) || c.outcome == Some(Outcome.UNDELIVERED)
            || c.outcome == Some(Outcome.FAILED) || c.outcome == Some(Outcome.BLOCKED)))
  }

  // How an item ends whose call is over.
  ghost predicate EndsAs(status: ItemStatus, c: Call) {
    && (status == ItemStatus.FAILED <==> c.outcome == Some(Outcome.FAILED))
    && (status == ItemStatus.BLOCKED <==> c.outcome == Some(Outcome.BLOCKED))
    && (status == COMPLETED <==> c.outcome != Some(Outcome.FAILED) && c.outcome != Some(Outcome.BLOCKED))
  }

  // Item i is session k's current one and is being called.
  ghost predicate OnTheLine(s: State, k: nat, i: nat) {
    k < |s.sessions| && i < |s.items| && s.items[i].session == k && s.items[i].status == CALLING && s.sessions[k].current == Some(i)
  }

  // Session k has no call that still goes on.
  ghost predicate HasNoCall(s: State, k: nat, e: Env)
    requires k < |s.sessions|
  {
    s.sessions[k].current.Some? ==>
      (var i := s.sessions[k].current.value; i >= |s.items| || s.items[i].status != CALLING || IsOver(e.calls(i)))
  }

  // Looking at session k settles its call exactly if that is over, and frees the session exactly if it has
  // no call that goes on. Nothing else changes.
  lemma ReconciledExactly(s: State, k: nat, e: Env)
    requires k < |s.sessions|
    ensures var t := Reconciled(s, k, e);
      && t.dialed == s.dialed && |t.items| == |s.items| && |t.sessions| == |s.sessions|
      && (forall l :: 0 <= l < |s.sessions| && l != k ==> t.sessions[l] == s.sessions[l])
      && t.sessions[k] == s.sessions[k].(current := if HasNoCall(s, k, e) then None else s.sessions[k].current)
      && (forall i: nat :: i < |s.items| && s.sessions[k].current == Some(i) && s.items[i].status == CALLING && IsOver(e.calls(i)) ==>
            t.items[i] == s.items[i].(status := t.items[i].status) && EndsAs(t.items[i].status, e.calls(i)))
      && (forall i: nat :: i < |s.items| && !(s.sessions[k].current == Some(i) && s.items[i].status == CALLING && IsOver(e.calls(i))) ==>
            t.items[i] == s.items[i])
  {
  }

  // ----- what one dial does

  // The waiting item of session k in the lowest position.
  ghost predicate IsFirst(s: State, k: nat, n: nat) {
    && n < |s.items| && s.items[n].session == k && s.items[n].status == PENDING
    && forall i :: 0 <= i < |s.items| && i != n && s.items[i].session == k && s.items[i].status == PENDING ==>
         s.items[n].position < s.items[i].position
  }

  ghost predicate NoneWaits(s: State, k: nat) {
    forall i :: 0 <= i < |s.items| && s.items[i].session == k ==> s.items[i].status != PENDING
  }

  lemma NextIs(s: State, k: nat)
    requires InSequence(s)
    ensures match NextPendingDialItem(s, k) case None => NoneWaits(s, k) case Some(n) => IsFirst(s, k, n)
  {
    NextIsLowest(s, k);
  }

  // Item n alone has another status.
  ghost predicate Marks(s: State, t: State, n: nat, status: ItemStatus)
    requires n < |s.items|
  {
    t.items == s.items[n := s.items[n].(status := status)]
  }

  // Session k alone has another status or current item.
  ghost predicate Leaves(s: State, t: State, k: nat, status: SessionStatus, current: Option<nat>)
    requires k < |s.sessions|
  {
    t.sessions == s.sessions[k := s.sessions[k].(status := status, current := current)]
  }

  ghost predicate CarrierIsAsked(s: State, t: State, n: nat, asked: bool) {
    t.dialed == if asked then s.dialed + [n] else s.dialed
  }

  // Dialing the next lead by hand does something exactly on an active manual list without a call: it takes
  // the first waiting item, or finishes the list if none waits. The carrier is asked exactly if the lead
  // exists and the gate lets it through, and the call is on the line exactly if the carrier took it.
  lemma DialByHandExactly(s: State, k: nat, e: Env)
    requires Inv(s) && k < |s.sessions|
    ensures var t, ready := ManuallyDialed(s, k, e), s.sessions[k].mode == MANUAL_NEXT && s.sessions[k].status == ACTIVE && s.sessions[k].current == None;
      && (!ready ==> t == s)
      && (ready && NoneWaits(s, k) ==> Leaves(s, t, k, DONE, None) && t.items == s.items && t.dialed == s.dialed)
      && forall n: nat :: ready && IsFirst(s, k, n) ==>
           && Marks(s, t, n, if !e.leadExists(n) then ItemStatus.FAILED else if e.place(n) == Started then CALLING else ItemStatus.BLOCKED)
           && Leaves(s, t, k, ACTIVE, if e.leadExists(n) && e.place(n) == Started then Some(n) else None)
           && CarrierIsAsked(s, t, n, e.leadExists(n) && e.place(n) != Refused)
  {
    NextIs(s, k);
    if s.sessions[k].mode == MANUAL_NEXT && s.sessions[k].status == ACTIVE && s.sessions[k].current == None {
      match NextPendingDialItem(s, k)
      case None =>
      case Some(i) =>
        assert forall n: nat :: IsFirst(s, k, n) ==> n == i;
    }
  }

  // A turn of an automated list that gets to dialing: the same, except that a call the carrier would not take
  // is FAILED and only one that was refused before is BLOCKED. What the turn writes to an object that is not
  // stored is lost: the session's part if held is false, and with the database both parts if placing saved.
  lemma DialByTurnExactly(b: Backend, s: State, k: nat, e: Env, held: bool)
    requires Inv(s) && k < |s.sessions|
    ensures var t := AutoDialed(b, s, k, e, held);
      && (NoneWaits(s, k) ==> Leaves(s, t, k, if held then DONE else s.sessions[k].status, s.sessions[k].current) && t.items == s.items && t.dialed == s.dialed)
      && forall n: nat :: IsFirst(s, k, n) ==>
           && CarrierIsAsked(s, t, n, e.leadExists(n) && e.place(n) != Refused)
           && (var lost := b == Database && e.leadExists(n) && e.conversational(n) && e.place(n) != Refused;
               var started := e.leadExists(n) && e.place(n) == Started && !lost;
               && Leaves(s, t, k, s.sessions[k].status, if started && held then Some(n) else s.sessions[k].current)
               && Marks(s, t, n, if lost then PENDING else if started then CALLING
                                 else if e.leadExists(n) && e.place(n) == Refused then ItemStatus.BLOCKED else ItemStatus.FAILED))
  {
    NextIs(s, k);
    NextIsLowest(s, k);
    assert s.sessions == s.sessions[k := s.sessions[k]];
    forall n: nat | IsFirst(s, k, n) ensures s.items == s.items[n := s.items[n].(status := PENDING)] {
    }
  }

  // An item other than session k's own finished call is on the line.
  ghost predicate AnotherTalks(s: State, k: nat, e: Env)
    requires k < |s.sessions|
  {
    exists i: nat :: i < |s.items| && s.items[i].status == CALLING && !(s.sessions[k].current == Some(i) && IsOver(e.calls(i)))
  }

  ghost predicate SomeoneToCall(s: State, k: nat, e: Env) {
    exists n: nat :: IsFirst(s, k, n) && e.leadExists(n)
  }

  lemma TalksExactly(s: State, k: nat, e: Env)
    requires Inv(s) && k < |s.sessions|
    ensures AnyCalling(Reconciled(s, k, e)) <==> AnotherTalks(s, k, e)
  {
    var r := Reconciled(s, k, e);
    ReconciledExactly(s, k, e);
    if i: nat :| i < |s.items| && s.items[i].status == CALLING && !(s.sessions[k].current == Some(i) && IsOver(e.calls(i))) {
      assert r.items[i] == s.items[i];
    }
    if AnyCalling(r) {
      var i :| 0 <= i < |r.items| && r.items[i].status == CALLING;
      assert !(s.sessions[k].current == Some(i) && IsOver(e.calls(i)));
    }
  }

  lemma SameFirst(s: State, k: nat, e: Env, n: nat)
    requires Inv(s) && k < |s.sessions|
    ensures IsFirst(Reconciled(s, k, e), k, n) <==> IsFirst(s, k, n)
    ensures NoneWaits(Reconciled(s, k, e), k) <==> NoneWaits(s, k)
  {
    var r := Reconciled(s, k, e);
    ReconciledExactly(s, k, e);
    forall i: nat | i < |s.items|
      ensures r.items[i].session == s.items[i].session && r.items[i].position == s.items[i].position
      ensures r.items[i].status == PENDING <==> s.items[i].status == PENDING
    {
    }
  }

  lemma FreeExactly(s: State, k: nat, e: Env)
    requires k < |s.sessions|
    ensures IsFree(s, k, e) <==> HasNoCall(s, k, e)
  {
  }

  lemma SomeoneExactly(s: State, k: nat, e: Env)
    requires InSequence(s)
    ensures var next := NextPendingDialItem(s, k); next.Some? && e.leadExists(next.value) <==> SomeoneToCall(s, k, e)
    ensures NextPendingDialItem(s, k).Some? ==> IsFirst(s, k, NextPendingDialItem(s, k).value)
  {
    NextIs(s, k);
  }

  lemma SameSomeone(s: State, k: nat, e: Env)
    requires Inv(s) && k < |s.sessions|
    ensures SomeoneToCall(Reconciled(s, k, e), k, e) <==> SomeoneToCall(s, k, e)
  {
    forall n: nat | true ensures IsFirst(Reconciled(s, k, e), k, n) <==> IsFirst(s, k, n) {
      SameFirst(s, k, e, n);
    }
  }

  lemma DialsExactly(s: State, k: nat, e: Env)
    requires Inv(s) && k < |s.sessions|
    ensures Dials(s, k, e).Some? <==> HasNoCall(s, k, e) && !AnotherTalks(s, k, e) && SomeoneToCall(s, k, e)
    ensures Dials(s, k, e).Some? ==> IsFirst(s, k, Dials(s, k, e).value) && e.leadExists(Dials(s, k, e).value)
  {
    var r := Reconciled(s, k, e);
    ReconciledKeeps(s, k, e, true);
    FreeExactly(s, k, e);
    TalksExactly(s, k, e);
    SomeoneExactly(r, k, e);
    SameSomeone(s, k, e);
    if Dials(s, k, e).Some? {
      SameFirst(s, k, e, Dials(s, k, e).value);
    }
  }

  // A turn leaves a call that goes on alone. A list without one ends the tick exactly if another call is on
  // the line, and otherwise dials. The session objects stay the stored ones unless, with the database, the
  // turn got so far as to ask the gate.
  lemma TurnExactly(b: Backend, s: State, k: nat, e: Env, held: bool)
    requires Inv(s) && k < |s.sessions|
    ensures !HasNoCall(s, k, e) ==> Turn(b, s, k, e, held) == s
    ensures HasNoCall(s, k, e) ==>
      Turn(b, s, k, e, held) == (var r := HeldReconciled(s, k, e, held); if AnotherTalks(s, k, e) then r else AutoDialed(b, r, k, e, held))
    ensures EndsTick(s, k, e) <==> HasNoCall(s, k, e) && AnotherTalks(s, k, e)
    ensures HeldAfter(b, s, k, e, held) <==>
      held && (b == LocalFile || !HasNoCall(s, k, e) || AnotherTalks(s, k, e) || !SomeoneToCall(s, k, e))
  {
    ReconciledExactly(s, k, e);
    TalksExactly(s, k, e);
    DialsExactly(s, k, e);
    SameItems(s, k, e, held);
    if !HasNoCall(s, k, e) {
      assert Reconciled(s, k, e) == s;
    }
  }

  // What each operation does once it has looked at the list's call.
  lemma PauseExactly(s: State, k: nat)
    requires k < |s.sessions|
    ensures var t := Changed(s, k, PAUSE); Leaves(s, t, k, PAUSED, s.sessions[k].current) && t.items == s.items && t.dialed == s.dialed
    ensures var finished := s.sessions[k].status == DONE || s.sessions[k].status == SessionStatus.CANCELLED;
            var t := Changed(s, k, RESUME);
            Leaves(s, t, k, if finished then s.sessions[k].status else ACTIVE, s.sessions[k].current) && t.items == s.items && t.dialed == s.dialed
  {
    assert s.sessions == s.sessions[k := s.sessions[k]];
  }

  lemma SkipExactly(s: State, k: nat)
    requires Inv(s) && k < |s.sessions|
    ensures var t := Changed(s, k, SKIP_NEXT);
      && t.sessions == s.sessions && t.dialed == s.dialed
      && (s.sessions[k].current.Some? || NoneWaits(s, k) ==> t.items == s.items)
      && forall n: nat :: s.sessions[k].current == None && IsFirst(s, k, n) ==> Marks(s, t, n, SKIPPED)
  {
    NextIs(s, k);
    NextIsLowest(s, k);
  }

  lemma CancelExactly(s: State, k: nat)
    requires k < |s.sessions|
    ensures var t := Changed(s, k, CANCEL);
      && Leaves(s, t, k, SessionStatus.CANCELLED, s.sessions[k].current) && t.dialed == s.dialed && |t.items| == |s.items|
      && forall i :: 0 <= i < |s.items| ==>
           t.items[i] == s.items[i].(status := if s.items[i].session == k && s.items[i].status == PENDING then SKIPPED else s.items[i].status)
  {
  }

  // ----- which sessions a tick takes up

  ghost predicate IsOn(session: Session) {
    session.mode == AUTO_SEQUENTIAL && session.status == ACTIVE
  }

  function OnBefore(sessions: seq<Session>, n: nat): nat
    requires n <= |sessions|
  {
    if n == 0 then 0
    else OnBefore(sessions, n - 1) + if sessions[n - 1].mode == AUTO_SEQUENTIAL && sessions[n - 1].status == ACTIVE then 1 else 0
  }

  lemma {:induction false} AutomatedExactly(sessions: seq<Session>, n: nat, k: nat)
    requires n <= |sessions|
    ensures |Automated(sessions, n)| == OnBefore(sessions, n)
    ensures k < n && IsOn(sessions[k]) ==> OnBefore(sessions, k) < OnBefore(sessions, n) && Automated(sessions, n)[OnBefore(sessions, k)] == k
    ensures k in Automated(sessions, n) ==> k < n && IsOn(sessions[k])
    decreases n
  {
    if n > 0 {
      AutomatedExactly(sessions, n - 1, k);
      AutomatedExactly(sessions, n - 1, n - 1);
    }
  }

  lemma PickedAt(s: State, limit: nat, m: nat)
    requires m < |Picked(s, limit)|
    ensures var k := Picked(s, limit)[m]; k < |s.sessions| && IsOn(s.sessions[k]) && OnBefore(s.sessions, k) == m
  {
    var all, k := Automated(s.sessions, |s.sessions|), Picked(s, limit)[m];
    assert all[m] == k && k in all;
    AutomatedExactly(s.sessions, |s.sessions|, k);
    AutomatedIs(s.sessions, |s.sessions|);
  }

  // Session k is taken up exactly if it is active and automated and fewer than limit such are older.
  lemma PickedExactly(s: State, limit: nat, k: nat)
    ensures k in Picked(s, limit) <==> k < |s.sessions| && IsOn(s.sessions[k]) && OnBefore(s.sessions, k) < limit
  {
    var picked := Picked(s, limit);
    AutomatedExactly(s.sessions, |s.sessions|, k);
    if k < |s.sessions| && IsOn(s.sessions[k]) && OnBefore(s.sessions, k) < limit {
      assert picked[OnBefore(s.sessions, k)] == k;
    }
    if k in picked {
      var m :| 0 <= m < |picked| && picked[m] == k;
      PickedAt(s, limit, m);
    }
  }

  // The oldest active automated session.
  ghost predicate IsOldest(s: State, k: nat) {
    k < |s.sessions| && IsOn(s.sessions[k]) && forall j :: 0 <= j < k ==> !IsOn(s.sessions[j])
  }

  lemma {:induction false} NoneBefore(sessions: seq<Session>, n: nat)
    requires n <= |sessions|
    ensures OnBefore(sessions, n) == 0 <==> forall j :: 0 <= j < n ==> !IsOn(sessions[j])
  {
    if n > 0 {
      NoneBefore(sessions, n - 1);
    }
  }

  // It is the one whose turn comes first.
  lemma FirstIsOldest(s: State, limit: nat, k: nat)
    ensures Picked(s, limit) != [] && Picked(s, limit)[0] == k <==> limit > 0 && IsOldest(s, k)
  {
    var picked := Picked(s, limit);
    PickedExactly(s, limit, k);
    if k < |s.sessions| {
      NoneBefore(s.sessions, k);
    }
    AutomatedExactly(s.sessions, |s.sessions|, k);
    if picked != [] {
      PickedExactly(s, limit, picked[0]);
      AutomatedExactly(s.sessions, |s.sessions|, picked[0]);
      PickedIs(s, limit);
    }
  }

  // ----- what each step does to a call

  // This step looks at session k: every step on that session does, and of the sessions a tick takes up only
  // the first gets so far with a call of an automated session on the line.
  ghost predicate LooksAt(s: State, step: Step, k: nat) {
    match step
    case Create(_, _, _) => false
    case Advance(j, _) => j == k
    case Update(j, _, _) => j == k
    case Reconcile(j, _) => j == k
    case AutoTick(limit, enabled, _) => enabled && limit > 0 && IsOldest(s, k)
  }

  lemma {:induction false} OthersTurns(b: Backend, s: State, picked: seq<nat>, e: Env, held: bool, k: nat, i: nat)
    requires Inv(s) && OnTheLine(s, k, i) && (forall n :: 0 <= n < |picked| ==> picked[n] < |s.sessions|)
    requires (forall n :: 0 <= n < |picked| ==> picked[n] != k) || !IsOver(e.calls(i))
    ensures var t := AutoTicked(b, s, picked, e, held); OnTheLine(t, k, i) && t.dialed == s.dialed
    decreases |picked|
  {
    if picked != [] {
      var j, t := picked[0], Turn(b, s, picked[0], e, held);
      StillOnTheLine(s, j, e, held, k, i);
      assert AnyCalling(HeldReconciled(s, j, e, held));
      assert t == HeldReconciled(s, j, e, held);
      ReconciledKeeps(s, j, e, held);
      if !EndsTick(s, j, e) {
        OthersTurns(b, t, picked[1..], e, HeldAfter(b, s, j, e, held), k, i);
      }
    }
  }

  lemma StillOnTheLine(s: State, j: nat, e: Env, held: bool, k: nat, i: nat)
    requires Inv(s) && OnTheLine(s, k, i) && j < |s.sessions| && (j != k || !IsOver(e.calls(i)))
    ensures var t := HeldReconciled(s, j, e, held); OnTheLine(t, k, i) && t.dialed == s.dialed
  {
    ReconciledExactly(s, j, e);
  }

  // While an automated session has a call on the line, a tick ends with the first other session it takes up.
  lemma EndsWithAnother(b: Backend, s: State, picked: seq<nat>, e: Env, k: nat, i: nat)
    requires Inv(s) && OnTheLine(s, k, i) && s.sessions[k].mode == AUTO_SEQUENTIAL
    requires (forall n :: 0 <= n < |picked| ==> picked[n] < |s.sessions|) && picked != [] && picked[0] != k
    requires s.sessions[picked[0]].mode == AUTO_SEQUENTIAL
    ensures var t := AutoTicked(b, s, picked, e, true); OnTheLine(t, k, i) && t.dialed == s.dialed
  {
    var j := picked[0];
    ReconciledExactly(s, j, e);
    StillOnTheLine(s, j, e, true, k, i);
    assert AnyCalling(HeldReconciled(s, j, e, true));
    if s.sessions[j].current.Some? {
      var x := s.sessions[j].current.value;
      assert s.items[x].session == j;
      assert s.items[x].status != CALLING;
    }
    assert HasNoCall(s, j, e);
    assert EndsTick(s, j, e);
  }

  // The first session's turn, when its call is over.
  lemma TurnSettles(b: Backend, s: State, e: Env, k: nat, i: nat)
    requires Inv(s) && OnTheLine(s, k, i) && IsOver(e.calls(i))
    ensures var t := Turn(b, s, k, e, true); i < |t.items| && EndsAs(t.items[i].status, e.calls(i)) && Stage(t.items[i].status) == 2
  {
    var r := HeldReconciled(s, k, e, true);
    ReconciledExactly(s, k, e);
    EndedIsSettled(r.items[i].status, e.calls(i));
    AutoDialedIs(b, r, k, e, true);
  }

  lemma FirstIsSettled(b: Backend, s: State, picked: seq<nat>, e: Env, k: nat, i: nat)
    requires Inv(s) && OnTheLine(s, k, i) && IsOver(e.calls(i))
    requires (forall n :: 0 <= n < |picked| ==> picked[n] < |s.sessions|) && picked != [] && picked[0] == k
    ensures var t := AutoTicked(b, s, picked, e, true); i < |t.items| && EndsAs(t.items[i].status, e.calls(i)) && t.items[i].status != CALLING
  {
    var t := Turn(b, s, k, e, true);
    TurnSettles(b, s, e, k, i);
    TurnKeeps(b, s, k, e, true);
    if !EndsTick(s, k, e) {
      AutoTickedKeeps(b, t, picked[1..], e, HeldAfter(b, s, k, e, true));
    }
  }

  lemma TickSettlesExactly(b: Backend, s: State, limit: nat, enabled: bool, e: Env, k: nat, i: nat)
    requires Inv(s) && OnTheLine(s, k, i)
    ensures var t, looks := Ticked(b, s, limit, enabled, e), LooksAt(s, AutoTick(limit, enabled, e), k);
      && i < |t.items|
      && (looks && IsOver(e.calls(i)) ==> t.items[i].status != CALLING && EndsAs(t.items[i].status, e.calls(i)))
      && (!(looks && IsOver(e.calls(i))) ==> OnTheLine(t, k, i) && t.dialed == s.dialed)
  {
    var picked := Picked(s, limit);
    PickedIs(s, limit);
    FirstIsOldest(s, limit, k);
    if enabled && IsOver(e.calls(i)) && k in picked {
      PickedExactly(s, limit, k);
      PickedExactly(s, limit, picked[0]);
      if picked[0] == k {
        FirstIsSettled(b, s, picked, e, k, i);
      } else {
        EndsWithAnother(b, s, picked, e, k, i);
      }
    } else if enabled {
      forall n | 0 <= n < |picked| && picked[n] == k ensures k in picked {
      }
      OthersTurns(b, s, picked, e, true, k, i);
    }
  }

  lemma DialingSpares(s: State, j: nat, e: Env, k: nat, i: nat)
    requires Inv(s) && j < |s.sessions| && i < |s.items| && s.items[i].status != PENDING
    ensures i < |ManuallyDialed(s, j, e).items| && ManuallyDialed(s, j, e).items[i] == s.items[i]
    ensures OnTheLine(s, k, i) ==> OnTheLine(ManuallyDialed(s, j, e), k, i)
  {
    NextIs(s, j);
    DialByHandExactly(s, j, e);
  }

  lemma ChangingSpares(s: State, j: nat, op: Operation, k: nat, i: nat)
    requires Inv(s) && j < |s.sessions| && i < |s.items| && s.items[i].status != PENDING
    ensures i < |Changed(s, j, op).items| && Changed(s, j, op).items[i] == s.items[i]
    ensures OnTheLine(s, k, i) ==> OnTheLine(Changed(s, j, op), k, i)
  {
    match op
    case PAUSE => PauseExactly(s, j);
    case RESUME => PauseExactly(s, j);
    case CANCEL => CancelExactly(s, j);
    case SKIP_NEXT =>
      NextIs(s, j);
      SkipExactly(s, j);
  }

  // What becomes of an item on the line.
  ghost predicate SettledIf(over: bool, t: State, k: nat, i: nat, c: Call) {
    if over then i < |t.items| && t.items[i].status != CALLING && EndsAs(t.items[i].status, c) else OnTheLine(t, k, i)
  }

  lemma LookSettlesExactly(s: State, j: nat, e: Env, k: nat, i: nat)
    requires Inv(s) && OnTheLine(s, k, i) && j < |s.sessions|
    ensures SettledIf(j == k && IsOver(e.calls(i)), Reconciled(s, j, e), k, i, e.calls(i))
  {
    ReconciledExactly(s, j, e);
  }

  lemma AdvanceSettlesExactly(s: State, j: nat, e: Env, k: nat, i: nat)
    requires Inv(s) && OnTheLine(s, k, i) && j < |s.sessions|
    ensures SettledIf(j == k && IsOver(e.calls(i)), Advanced(s, j, e), k, i, e.calls(i))
  {
    LookSettlesExactly(s, j, e, k, i);
    ReconciledKeeps(s, j, e, true);
    DialingSpares(Reconciled(s, j, e), j, e, k, i);
  }

  lemma UpdateSettlesExactly(s: State, j: nat, op: Operation, e: Env, k: nat, i: nat)
    requires Inv(s) && OnTheLine(s, k, i) && j < |s.sessions|
    ensures SettledIf(j == k && IsOver(e.calls(i)), Updated(s, j, op, e), k, i, e.calls(i))
  {
    LookSettlesExactly(s, j, e, k, i);
    ReconciledKeeps(s, j, e, true);
    ChangingSpares(Reconciled(s, j, e), j, op, k, i);
  }

  lemma CreateSpares(s: State, mode: Mode, requested: nat, leads: nat, k: nat, i: nat)
    requires OnTheLine(s, k, i)
    ensures OnTheLine(Created(s, mode, requested, leads), k, i)
  {
    if leads != 0 && requested <= 50 {
      CreatedIs(s, mode, requested, leads);
    }
  }

  // An item on the line is settled exactly by a step that looks at its session and finds the call over, and
  // ends as its outcome says; by any other step it stays on the line.
  lemma CallIsSettledExactly(b: Backend, s: State, step: Step, k: nat, i: nat)
    requires Inv(s) && OnTheLine(s, k, i)
    ensures if LooksAt(s, step, k) && IsOver(step.e.calls(i))
            then i < |Next(b, s, step).items| && Next(b, s, step).items[i].status != CALLING && EndsAs(Next(b, s, step).items[i].status, step.e.calls(i))
            else OnTheLine(Next(b, s, step), k, i)
  {
    match step
    case Create(mode, requested, leads) => CreateSpares(s, mode, requested, leads, k, i);
    case Reconcile(j, e) => if j < |s.sessions| { LookSettlesExactly(s, j, e, k, i); }
    case Advance(j, e) => if j < |s.sessions| { AdvanceSettlesExactly(s, j, e, k, i); }
    case Update(j, op, e) => if j < |s.sessions| { UpdateSettlesExactly(s, j, op, e, k, i); }
    case AutoTick(limit, enabled, e) => TickSettlesExactly(b, s, limit, enabled, e, k, i);
  }

  // An item that waits is never completed in one step: its list's turn comes once in a tick.
  lemma {:induction false} TickCompletesNoWaiting(b: Backend, s: State, picked: seq<nat>, e: Env, held: bool, k: nat, i: nat)
    requires Inv(s) && k < |s.sessions| && i < |s.items| && s.items[i].session == k && s.items[i].status == PENDING
    requires Increasing(picked) && forall n :: 0 <= n < |picked| ==> picked[n] < |s.sessions|
    ensures var t := AutoTicked(b, s, picked, e, held); i < |t.items| && t.items[i].status != COMPLETED
    decreases |picked|
  {
    if picked != [] {
      var t := Turn(b, s, picked[0], e, held);
      TurnKeeps(b, s, picked[0], e, held);
      if picked[0] == k {
        TurnCompletesNoWaiting(b, s, k, e, held, i);
        if !EndsTick(s, k, e) {
          LeftAlone(b, t, picked[1..], e, HeldAfter(b, s, k, e, held), k, i);
        }
      } else {
        TurnIsOwn(b, s, picked[0], k, e, held);
        if !EndsTick(s, picked[0], e) {
          TickCompletesNoWaiting(b, t, picked[1..], e, HeldAfter(b, s, picked[0], e, held), k, i);
        }
      }
    }
  }

  lemma TurnCompletesNoWaiting(b: Backend, s: State, k: nat, e: Env, held: bool, i: nat)
    requires Inv(s) && k < |s.sessions| && i < |s.items| && s.items[i].session == k && s.items[i].status == PENDING
    ensures i < |Turn(b, s, k, e, held).items| && Turn(b, s, k, e, held).items[i].status != COMPLETED
  {
    ReconciledExactly(s, k, e);
    AutoDialedIs(b, HeldReconciled(s, k, e, held), k, e, held);
  }

  // The other sessions' turns.
  lemma {:induction false} LeftAlone(b: Backend, s: State, picked: seq<nat>, e: Env, held: bool, k: nat, i: nat)
    requires Inv(s) && k < |s.sessions| && i < |s.items| && s.items[i].session == k
    requires forall n :: 0 <= n < |picked| ==> picked[n] < |s.sessions| && picked[n] != k
    ensures var t := AutoTicked(b, s, picked, e, held); i < |t.items| && t.items[i] == s.items[i]
    decreases |picked|
  {
    if picked != [] {
      TurnIsOwn(b, s, picked[0], k, e, held);
      TurnKeeps(b, s, picked[0], e, held);
      if !EndsTick(s, picked[0], e) {
        LeftAlone(b, Turn(b, s, picked[0], e, held), picked[1..], e, HeldAfter(b, s, picked[0], e, held), k, i);
      }
    }
  }

  lemma DialCompletesNothing(s: State, k: nat, e: Env, i: nat)
    requires Inv(s) && k < |s.sessions| && i < |s.items| && s.items[i].status == PENDING
    ensures i < |Advanced(s, k, e).items| && Advanced(s, k, e).items[i].status != COMPLETED
  {
    var r := Reconciled(s, k, e);
    ReconciledExactly(s, k, e);
    ReconciledKeeps(s, k, e, true);
    NextIs(r, k);
    DialByHandExactly(r, k, e);
  }

  lemma ChangeCompletesNothing(s: State, k: nat, op: Operation, e: Env, i: nat)
    requires Inv(s) && k < |s.sessions| && i < |s.items| && s.items[i].status == PENDING
    ensures i < |Updated(s, k, op, e).items| && Updated(s, k, op, e).items[i].status != COMPLETED
  {
    var r := Reconciled(s, k, e);
    ReconciledExactly(s, k, e);
    ReconciledKeeps(s, k, e, true);
    NextIs(r, k);
    PauseExactly(r, k);
    SkipExactly(r, k);
    CancelExactly(r, k);
  }

  lemma WaitingIsNotCompleted(b: Backend, s: State, step: Step, i: nat)
    requires Inv(s) && i < |s.items| && s.items[i].status == PENDING
    ensures i < |Next(b, s, step).items| && Next(b, s, step).items[i].status != COMPLETED
  {
    match step
    case Create(mode, requested, leads) =>
    case Reconcile(j, e) => if j < |s.sessions| { ReconciledExactly(s, j, e); }
    case Advance(j, e) => if j < |s.sessions| { DialCompletesNothing(s, j, e, i); }
    case Update(j, op, e) => if j < |s.sessions| { ChangeCompletesNothing(s, j, op, e, i); }
    case AutoTick(limit, enabled, e) =>
      PickedIs(s, limit);
      TickCompletesNoWaiting(b, s, Picked(s, limit), e, true, s.items[i].session, i);
  }

  // In every state and by every step: an item becomes COMPLETED exactly if it is on the line, the step looks
  // at its session, its call is over, and the outcome is neither FAILED nor BLOCKED.
  lemma CompletedExactly(b: Backend, s: State, step: Step, i: nat)
    requires Inv(s) && i < |s.items| && s.items[i].status != COMPLETED
    ensures i < |Next(b, s, step).items|
    ensures var k := s.items[i].session;
            Next(b, s, step).items[i].status == COMPLETED <==>
              OnTheLine(s, k, i) && LooksAt(s, step, k) && IsOver(step.e.calls(i))
              && step.e.calls(i).outcome != Some(Outcome.FAILED) && step.e.calls(i).outcome != Some(Outcome.BLOCKED)
  {
    var k := s.items[i].session;
    NextKeeps(b, s, step);
    if OnTheLine(s, k, i) {
      CallIsSettledExactly(b, s, step, k, i);
    } else if s.items[i].status == CALLING {
      NextKeepsOrphan(b, s, step, k, i);
    } else if s.items[i].status == PENDING {
      WaitingIsNotCompleted(b, s, step, i);
    }
  }

  // ----- while a call goes on

  // New dials are made by hand and for other lists.
  ghost predicate OnlyOthersByHand(s: State, t: State, k: nat) {
    && |s.dialed| <= |t.dialed|
    && forall n :: |s.dialed| <= n < |t.dialed| ==>
         && t.dialed[n] < |t.items| && t.items[t.dialed[n]].session < |t.sessions|
         && t.items[t.dialed[n]].session != k && t.sessions[t.items[t.dialed[n]].session].mode == MANUAL_NEXT
  }

  lemma OthersTwice(s: State, t: State, u: State, k: nat)
    requires OnlyOthersByHand(s, t, k) && OnlyOthersByHand(t, u, k) && Forward(t, u)
    ensures OnlyOthersByHand(s, u, k)
  {
    forall n | |s.dialed| <= n < |t.dialed| ensures u.dialed[n] == t.dialed[n] {
      assert u.dialed[n] == u.dialed[..|t.dialed|][n];
    }
  }

  lemma DialedByHand(s: State, j: nat, e: Env, k: nat, i: nat)
    requires Inv(s) && OnTheLine(s, k, i) && j < |s.sessions|
    ensures OnlyOthersByHand(s, ManuallyDialed(s, j, e), k)
  {
    NextIs(s, j);
    DialByHandExactly(s, j, e);
  }

  lemma ChangedDialsNothing(s: State, j: nat, op: Operation)
    requires j < |s.sessions|
    ensures Changed(s, j, op).dialed == s.dialed
  {
    CancelledIs(s, j);
    NextIsLowest(s, j);
  }

  lemma AdvanceDialsByHand(s: State, j: nat, e: Env, k: nat, i: nat)
    requires Inv(s) && OnTheLine(s, k, i) && j < |s.sessions| && !(j == k && IsOver(e.calls(i)))
    ensures OnlyOthersByHand(s, Advanced(s, j, e), k)
  {
    LookSettlesExactly(s, j, e, k, i);
    ReconciledKeeps(s, j, e, true);
    DialedByHand(Reconciled(s, j, e), j, e, k, i);
  }

  // One step, unless it finds the call over.
  lemma StepDialsByHand(b: Backend, s: State, step: Step, k: nat, i: nat)
    requires Inv(s) && OnTheLine(s, k, i) && !(LooksAt(s, step, k) && IsOver(step.e.calls(i)))
    ensures OnlyOthersByHand(s, Next(b, s, step), k)
  {
    match step
    case Create(mode, requested, leads) =>
    case Reconcile(j, e) =>
    case Advance(j, e) => if j < |s.sessions| { AdvanceDialsByHand(s, j, e, k, i); }
    case Update(j, op, e) => if j < |s.sessions| { ChangedDialsNothing(Reconciled(s, j, e), j, op); }
    case AutoTick(limit, enabled, e) => TickSettlesExactly(b, s, limit, enabled, e, k, i);
  }

  // No step of the run finds item i's call over when it looks at session k.
  ghost predicate NeverFoundOver(b: Backend, s: State, steps: seq<Step>, k: nat, i: nat)
    decreases |steps|
  {
    steps == [] || (!(LooksAt(s, steps[0], k) && IsOver(steps[0].e.calls(i))) && NeverFoundOver(b, Next(b, s, steps[0]), steps[1..], k, i))
  }

  // Over every run: an item on the line stays there to the end exactly if no step finds its call over, and
  // all the while its own list dials nothing and neither does any automated one.
  lemma {:induction false} OnTheLineExactly(b: Backend, s: State, steps: seq<Step>, k: nat, i: nat)
    requires Inv(s) && OnTheLine(s, k, i)
    ensures OnTheLine(Run(b, s, steps), k, i) <==> NeverFoundOver(b, s, steps, k, i)
    ensures NeverFoundOver(b, s, steps, k, i) ==> OnlyOthersByHand(s, Run(b, s, steps), k)
    decreases |steps|
  {
    if steps != [] {
      var t := Next(b, s, steps[0]);
      CallIsSettledExactly(b, s, steps[0], k, i);
      NextKeeps(b, s, steps[0]);
      RunKeeps(b, t, steps[1..]);
      if LooksAt(s, steps[0], k) && IsOver(steps[0].e.calls(i)) {
        EndedIsSettled(t.items[i].status, steps[0].e.calls(i));
      } else {
        OnTheLineExactly(b, t, steps[1..], k, i);
        StepDialsByHand(b, s, steps[0], k, i);
        if NeverFoundOver(b, t, steps[1..], k, i) {
          OthersTwice(s, t, Run(b, t, steps[1..]), k);
        }
      }
    }
  }

  lemma EndedIsSettled(status: ItemStatus, c: Call)
    requires EndsAs(status, c)
    ensures Stage(status) == 2
  {
  }

  // In particular while the call is queued, ringing or connected, whatever its attempt's outcome.
  ghost predicate Talks(step: Step, i: nat) {
    step.Create? || step.e.calls(i).live in {Some(CallStatus.QUEUED), Some(RINGING), Some(CONNECTED)}
  }

  lemma {:induction false} TalkingIsNotOver(b: Backend, s: State, steps: seq<Step>, k: nat, i: nat)
    requires forall n :: 0 <= n < |steps| ==> Talks(steps[n], i)
    ensures NeverFoundOver(b, s, steps, k, i)
    decreases |steps|
  {
    if steps != [] {
      assert Talks(steps[0], i);
      assert forall n :: 0 <= n < |steps[1..]| ==> steps[1..][n] == steps[n + 1];
      TalkingIsNotOver(b, Next(b, s, steps[0]), steps[1..], k, i);
    }
  }

  lemma NobodyIsCutOff(b: Backend, before: seq<Step>, steps: seq<Step>, k: nat, i: nat)
    requires OnTheLine(Run(b, NOTHING, before), k, i) && forall n :: 0 <= n < |steps| ==> Talks(steps[n], i)
    ensures var s := Run(b, NOTHING, before); OnTheLine(Run(b, s, steps), k, i) && OnlyOthersByHand(s, Run(b, s, steps), k)
  {
    var s := Run(b, NOTHING, before);
    RunKeeps(b, NOTHING, before);
    TalkingIsNotOver(b, s, steps, k, i);
    OnTheLineExactly(b, s, steps, k, i);
  }

  // ----- what a tick leaves undone

  // An automated list resumed while a younger one has a call on the line: no tick ever settles that call,
  // over or not, and no automated list dials, for as long as only ticks are taken and the older list is the
  // oldest that is on.
  lemma {:induction false} OlderListStopsTheDialer(b: Backend, s: State, steps: seq<Step>, j: nat, k: nat, i: nat)
    requires Inv(s) && OnTheLine(s, k, i) && s.sessions[k].mode == AUTO_SEQUENTIAL && j < k && IsOldest(s, j)
    requires forall n :: 0 <= n < |steps| ==> steps[n].AutoTick?
    ensures var t := Run(b, s, steps); OnTheLine(t, k, i) && t.dialed == s.dialed && IsOldest(t, j)
    decreases |steps|
  {
    if steps != [] {
      var t := Next(b, s, steps[0]);
      assert steps[0].AutoTick?;
      TickLeavesAll(b, s, steps[0], j, k, i);
      NextKeeps(b, s, steps[0]);
      assert forall n :: 0 <= n < |steps[1..]| ==> steps[1..][n] == steps[n + 1];
      OlderListStopsTheDialer(b, t, steps[1..], j, k, i);
    }
  }

  lemma TickLeavesAll(b: Backend, s: State, step: Step, j: nat, k: nat, i: nat)
    requires Inv(s) && OnTheLine(s, k, i) && s.sessions[k].mode == AUTO_SEQUENTIAL && j < k && IsOldest(s, j) && step.AutoTick?
    ensures var t := Next(b, s, step); OnTheLine(t, k, i) && t.dialed == s.dialed && IsOldest(t, j) && t.sessions[k].mode == AUTO_SEQUENTIAL
  {
    var picked := Picked(s, step.limit);
    PickedIs(s, step.limit);
    FirstIsOldest(s, step.limit, j);
    TickSettlesExactly(b, s, step.limit, step.enabled, step.e, k, i);
    if step.enabled && picked != [] {
      PickedAt(s, step.limit, 0);
      FirstTurnOnly(b, s, picked, step.e, k, i);
      ReconciledExactly(s, picked[0], step.e);
    }
  }

  lemma FirstTurnOnly(b: Backend, s: State, picked: seq<nat>, e: Env, k: nat, i: nat)
    requires Inv(s) && OnTheLine(s, k, i) && s.sessions[k].mode == AUTO_SEQUENTIAL
    requires (forall n :: 0 <= n < |picked| ==> picked[n] < |s.sessions|) && picked != [] && picked[0] != k
    requires s.sessions[picked[0]].mode == AUTO_SEQUENTIAL
    ensures AutoTicked(b, s, picked, e, true) == Reconciled(s, picked[0], e)
  {
    var j := picked[0];
    if s.sessions[j].current.Some? {
      assert s.items[s.sessions[j].current.value].session == j;
      assert s.items[s.sessions[j].current.value].status != CALLING;
    }
    TurnExactly(b, s, j, e, true);
    StillOnTheLine(s, j, e, true, k, i);
    assert s.items[i].status == CALLING && s.sessions[j].current != Some(i);
    assert AnotherTalks(s, j, e);
  }

  // With the database, when the first list of a tick asks the gate to no effect, the call the second list
  // then starts is nobody's current one. With the local file it is.
  lemma SecondListIsOrphaned(s: State, limit: nat, e: Env, j: nat, k: nat, m: nat, n: nat)
    requires Inv(s) && limit >= 2 && (forall i :: 0 <= i < |s.items| ==> s.items[i].status != CALLING)
    requires IsOldest(s, j) && j < k < |s.sessions| && IsOn(s.sessions[k]) && forall l :: j < l < k ==> !IsOn(s.sessions[l])
    requires s.sessions[j].current == None && IsFirst(s, j, m) && e.leadExists(m) && e.place(m) != Started && !e.conversational(m)
    requires s.sessions[k].current == None && IsFirst(s, k, n) && e.leadExists(n) && e.place(n) == Started && !e.conversational(n)
    ensures HasOrphan(Ticked(Database, s, limit, true, e), k, n)
    ensures OnTheLine(Ticked(LocalFile, s, limit, true, e), k, n)
  {
    FirstTwo(s, limit, j, k);
    SecondTurn(Database, s, Picked(s, limit), e, j, k, m, n);
    SecondTurn(LocalFile, s, Picked(s, limit), e, j, k, m, n);
  }

  lemma FirstTwo(s: State, limit: nat, j: nat, k: nat)
    requires limit >= 2 && IsOldest(s, j) && j < k < |s.sessions| && IsOn(s.sessions[k]) && forall l :: j < l < k ==> !IsOn(s.sessions[l])
    ensures var picked := Picked(s, limit);
      && |picked| >= 2 && picked[0] == j && picked[1] == k && Increasing(picked)
      && forall n :: 0 <= n < |picked| ==> picked[n] < |s.sessions|
  {
    PickedIs(s, limit);
    FirstIsOldest(s, limit, j);
    NoneBetween(s.sessions, j, k);
    NoneBefore(s.sessions, j);
    AutomatedExactly(s.sessions, |s.sessions|, k);
  }

  lemma {:induction false} NoneBetween(sessions: seq<Session>, j: nat, k: nat)
    requires j < k <= |sessions| && IsOn(sessions[j]) && forall l :: j < l < k ==> !IsOn(sessions[l])
    ensures OnBefore(sessions, k) == OnBefore(sessions, j) + 1
    decreases k
  {
    if k > j + 1 {
      NoneBetween(sessions, j, k - 1);
    }
  }

  // Asking the gate to no effect leaves everything but the item, and with the database the objects are stale.
  lemma FirstTurnFails(b: Backend, s: State, e: Env, j: nat, m: nat)
    requires Inv(s) && j < |s.sessions| && (forall i :: 0 <= i < |s.items| ==> s.items[i].status != CALLING)
    requires s.sessions[j].current == None && IsFirst(s, j, m) && e.leadExists(m) && e.place(m) != Started && !e.conversational(m)
    ensures var t := Turn(b, s, j, e, true);
      && t.sessions == s.sessions && |t.items| == |s.items|
      && (forall i :: 0 <= i < |s.items| && i != m ==> t.items[i] == s.items[i])
      && t.items[m].session == j && t.items[m].status != CALLING && t.items[m].status != PENDING
    ensures !EndsTick(s, j, e) && HeldAfter(b, s, j, e, true) == (b == LocalFile)
  {
    TurnExactly(b, s, j, e, true);
    ReconciledExactly(s, j, e);
    assert HeldReconciled(s, j, e, true) == s;
    DialByTurnExactly(b, s, j, e, true);
    assert SomeoneToCall(s, j, e);
  }

  lemma SecondTurn(b: Backend, s: State, picked: seq<nat>, e: Env, j: nat, k: nat, m: nat, n: nat)
    requires Inv(s) && (forall i :: 0 <= i < |s.items| ==> s.items[i].status != CALLING)
    requires |picked| >= 2 && picked[0] == j && picked[1] == k && Increasing(picked) && forall l :: 0 <= l < |picked| ==> picked[l] < |s.sessions|
    requires s.sessions[j].current == None && IsFirst(s, j, m) && e.leadExists(m) && e.place(m) != Started && !e.conversational(m)
    requires s.sessions[k].current == None && IsFirst(s, k, n) && e.leadExists(n) && e.place(n) == Started && !e.conversational(n)
    ensures var t := AutoTicked(b, s, picked, e, true); if b == Database then HasOrphan(t, k, n) else OnTheLine(t, k, n)
  {
    var t := Turn(b, s, j, e, true);
    FirstTurnFails(b, s, e, j, m);
    TurnKeeps(b, s, j, e, true);
    assert IsFirst(t, k, n);
    StartedThere(b, t, picked[1..], e, b == LocalFile, k, n);
  }

  lemma StartedThere(b: Backend, s: State, picked: seq<nat>, e: Env, held: bool, k: nat, n: nat)
    requires Inv(s) && (forall i :: 0 <= i < |s.items| ==> s.items[i].status != CALLING)
    requires picked != [] && picked[0] == k && Increasing(picked) && forall l :: 0 <= l < |picked| ==> picked[l] < |s.sessions|
    requires s.sessions[k].current == None && IsFirst(s, k, n) && e.leadExists(n) && e.place(n) == Started && !e.conversational(n)
    ensures var t := AutoTicked(b, s, picked, e, held); if held then OnTheLine(t, k, n) else HasOrphan(t, k, n)
  {
    var t := Turn(b, s, k, e, held);
    TurnExactly(b, s, k, e, held);
    ReconciledExactly(s, k, e);
    assert HeldReconciled(s, k, e, held) == s;
    DialByTurnExactly(b, s, k, e, held);
    TurnKeeps(b, s, k, e, held);
    assert !EndsTick(s, k, e);
    if held {
      assert OnTheLine(t, k, n);
      OthersTurns(b, t, picked[1..], e, HeldAfter(b, s, k, e, held), k, n);
    } else {
      assert HasOrphan(t, k, n);
      TickKeepsOrphan(b, t, picked[1..], e, HeldAfter(b, s, k, e, held), k, n);
    }
  }

  // ----- progress

  lemma {:induction false} CountedExactly(items: seq<Item>, statuses: set<ItemStatus>)
    ensures CountWhere(items, statuses) == |set i: nat | i < |items| && items[i].status in statuses|
  {
    if items != [] {
      var front, last: nat := items[..|items| - 1], |items| - 1;
      CountedExactly(front, statuses);
      var before := set i: nat | i < |front| && front[i].status in statuses;
      var all := set i: nat | i < |items| && items[i].status in statuses;
      assert all == before + (if items[last].status in statuses then {last} else {});
    }
  }

  ghost function Settled(items: seq<Item>): set<nat> {
    set i: nat | i < |items| && items[i].status != PENDING && items[i].status != CALLING
  }

  ghost function Unsettled(items: seq<Item>): set<nat> {
    set i: nat | i < |items| && (items[i].status == PENDING || items[i].status == CALLING)
  }

  // The progress shown: how many items are settled, of how many, and how many wait or are on the line.
  lemma ProgressExactly(items: seq<Item>)
    ensures Progress(items) == (|Settled(items)|, |items|, |Unsettled(items)|)
  {
    var settled, unsettled := {COMPLETED, ItemStatus.BLOCKED, ItemStatus.FAILED, SKIPPED}, {PENDING, CALLING};
    CountedExactly(items, settled);
    CountedExactly(items, unsettled);
    RemainingIsUnsettled(items);
    assert Settled(items) == set i: nat | i < |items| && items[i].status in settled;
    assert Unsettled(items) == set i: nat | i < |items| && items[i].status in unsettled;
  }
}
