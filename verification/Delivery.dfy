/** Lead states and delivery outcomes (stateMachine.ts, deliveryStatus.ts). */
module LeadStates {
  import opened Common

  datatype LeadState =
    | NEW | ATTEMPTING_CONTACT | IN_CONVERSATION | QUALIFYING | READY_FOR_HANDOFF | ASSIGNED
    | ACKNOWLEDGED | NURTURE | STALE | SUPPRESSED | CLOSED_WON | CLOSED_LOST

  // The channels outreach goes out on.
  datatype Channel = VOICE | SMS | EMAIL

  datatype LeadEvent =
    | LEAD_CREATED | OUTREACH_ATTEMPTED | CONTACT_ANSWERED | MAX_ATTEMPTS_REACHED | CONVERSATION_COMPLETED
    | PACKAGE_READY | OFFICER_ASSIGNED | OFFICER_ACKNOWLEDGED | CADENCE_EXHAUSTED | OPT_OUT_RECEIVED
    | DNC_MATCH | COMPLAINT | WRONG_PARTY | OFFICER_TAKEOVER | MARKED_WON | MARKED_LOST

  const TERMINAL_STATES := {SUPPRESSED, CLOSED_WON, CLOSED_LOST}
  const GLOBAL_EVENTS := {OPT_OUT_RECEIVED, DNC_MATCH, COMPLAINT, WRONG_PARTY}

  // None is the InvalidTransitionError.
  function Transition(from: LeadState, event: LeadEvent): Option<LeadState> {
    if from in TERMINAL_STATES then None
    else if event in GLOBAL_EVENTS then Some(SUPPRESSED)
    else if event == OFFICER_TAKEOVER then Some(ASSIGNED)
    else match (from, event)
      case (NEW, OUTREACH_ATTEMPTED) => Some(ATTEMPTING_CONTACT)
      case (ATTEMPTING_CONTACT, CONTACT_ANSWERED) => Some(IN_CONVERSATION)
      case (ATTEMPTING_CONTACT, MAX_ATTEMPTS_REACHED) => Some(NURTURE)
      case (IN_CONVERSATION, CONVERSATION_COMPLETED) => Some(QUALIFYING)
      case (QUALIFYING, PACKAGE_READY) => Some(READY_FOR_HANDOFF)
      case (READY_FOR_HANDOFF, OFFICER_ASSIGNED) => Some(ASSIGNED)
      case (ASSIGNED, OFFICER_ACKNOWLEDGED) => Some(ACKNOWLEDGED)
      case (NURTURE, CADENCE_EXHAUSTED) => Some(STALE)
      case (ACKNOWLEDGED, MARKED_WON) => Some(CLOSED_WON)
      case (ACKNOWLEDGED, MARKED_LOST) => Some(CLOSED_LOST)
      case _ => None
  }

  // An event that does not apply is refused and leaves the lead where it was.
  function After(state: LeadState, event: LeadEvent): LeadState {
    var next := Transition(state, event);
    if next.Some? then next.value else state
  }

  // From the states in which the lead is still open anyone can be suppressed and any officer can take over.
  lemma EnteredAnywhereExactly(from: LeadState, event: LeadEvent)
    ensures var to := Transition(from, event);
            var open := from != SUPPRESSED && from != CLOSED_WON && from != CLOSED_LOST;
      && (to == Some(SUPPRESSED) <==> open && (event == OPT_OUT_RECEIVED || event == DNC_MATCH || event == COMPLAINT || event == WRONG_PARTY))
      && (to == Some(ASSIGNED) <==> open && (event == OFFICER_TAKEOVER || (from == READY_FOR_HANDOFF && event == OFFICER_ASSIGNED)))
  {
  }

  // Every other state is entered from one state by one event.
  lemma EnteredExactly(from: LeadState, event: LeadEvent)
    ensures var to := Transition(from, event);
      && (to == Some(ATTEMPTING_CONTACT) <==> from == NEW && event == OUTREACH_ATTEMPTED)
      && (to == Some(IN_CONVERSATION) <==> from == ATTEMPTING_CONTACT && event == CONTACT_ANSWERED)
      && (to == Some(NURTURE) <==> from == ATTEMPTING_CONTACT && event == MAX_ATTEMPTS_REACHED)
      && (to == Some(QUALIFYING) <==> from == IN_CONVERSATION && event == CONVERSATION_COMPLETED)
      && (to == Some(READY_FOR_HANDOFF) <==> from == QUALIFYING && event == PACKAGE_READY)
      && (to == Some(ACKNOWLEDGED) <==> from == ASSIGNED && event == OFFICER_ACKNOWLEDGED)
      && (to == Some(STALE) <==> from == NURTURE && event == CADENCE_EXHAUSTED)
      && (to == Some(CLOSED_WON) <==> from == ACKNOWLEDGED && event == MARKED_WON)
      && (to == Some(CLOSED_LOST) <==> from == ACKNOWLEDGED && event == MARKED_LOST)
      && to != Some(NEW)
  {
  }

  function Life(state: LeadState, events: seq<LeadEvent>): LeadState
    decreases |events|
  {
    if events == [] then state else Life(After(state, events[0]), events[1..])
  }

  // A lead goes where its event takes it, and stays where it is by an event that is refused.
  lemma AfterExactly(state: LeadState, event: LeadEvent)
    ensures Transition(state, event) == None ==> After(state, event) == state
    ensures Transition(state, event).Some? ==> After(state, event) == Transition(state, event).value
  {
  }

  // How far a lead has come on the way to being won: nobody skips the officer.
  function Handed(state: LeadState): nat {
    match state
    case ASSIGNED => 1
    case ACKNOWLEDGED => 2
    case CLOSED_WON => 3
    case CLOSED_LOST => 3
    case _ => 0
  }

  // Over every run: a lead that is won or lost at the end was acknowledged by its officer on the way, and an
  // acknowledged one was assigned.
  lemma {:induction false} NobodySkipsTheOfficer(state: LeadState, events: seq<LeadEvent>)
    ensures Handed(Life(state, events)) == 3 && Handed(state) < 3 ==>
      Handed(state) == 2 || exists m: nat :: m < |events| && events[m] == OFFICER_ACKNOWLEDGED && Life(state, events[..m]) == ASSIGNED
    decreases |events|
  {
    if events != [] {
      var next := After(state, events[0]);
      NobodySkipsTheOfficer(next, events[1..]);
      EnteredExactly(state, events[0]);
      EnteredAnywhereExactly(state, events[0]);
      if Handed(next) < 2 && Handed(Life(next, events[1..])) == 3 {
        var m: nat :| m < |events[1..]| && events[1..][m] == OFFICER_ACKNOWLEDGED && Life(next, events[1..][..m]) == ASSIGNED;
        assert events[..m + 1][1..] == events[1..][..m];
        assert Life(state, events[..m + 1]) == ASSIGNED && events[m + 1] == OFFICER_ACKNOWLEDGED;
      } else if Handed(next) == 2 && Handed(state) < 2 {
        assert events[..0] == [] && Life(state, events[..0]) == state;
        assert events[0] == OFFICER_ACKNOWLEDGED && state == ASSIGNED;
      }
    }
  }
}

module DeliveryStatus {
  datatype Outcome =
    | QUEUED | SENT | BLOCKED | DELIVERED | ANSWERED | NO_ANSWER | BUSY | VOICEMAIL | FAILED | UNDELIVERED

  function Progression(o: Outcome): nat {
    match o
    case QUEUED => 1
    case SENT => 2
    case _ => 3
  }

  predicate IsTerminal(o: Outcome) {
    o in {DELIVERED, ANSWERED, NO_ANSWER, BUSY, VOICEMAIL, FAILED, UNDELIVERED, BLOCKED}
  }

  predicate ShouldApply(current: Outcome, incoming: Outcome) {
    && current != incoming
    && !IsTerminal(current)
    && Progression(incoming) > Progression(current)
  }

  // An attempt takes a status on exactly if it still waits and the status says more than queued, or it was
  // sent and the status says more than sent.
  lemma AppliesExactly(current: Outcome, incoming: Outcome)
    ensures ShouldApply(current, incoming) <==>
      || (current == QUEUED && incoming != QUEUED)
      || (current == SENT && incoming != QUEUED && incoming != SENT)
  {
  }

  function Apply(current: Outcome, incoming: Outcome): Outcome {
    if ShouldApply(current, incoming) then incoming else current
  }

  function Fold(current: Outcome, updates: seq<Outcome>): Outcome
    decreases |updates|
  {
    if updates == [] then current else Fold(Apply(current, updates[0]), updates[1..])
  }

  predicate HasTerminal(updates: seq<Outcome>) {
    exists u :: u in updates && IsTerminal(u)
  }

  function FirstTerminal(updates: seq<Outcome>): Outcome
    requires HasTerminal(updates)
  {
    if IsTerminal(updates[0]) then updates[0]
    else
      assert HasTerminal(updates[1..]) by {
        var u :| u in updates && IsTerminal(u);
        assert u in updates[1..];
      }
      FirstTerminal(updates[1..])
  }

  // The outcome an attempt ends with: the first terminal one if any arrived, otherwise the highest ranked.
  lemma {:induction false} FoldIs(current: Outcome, updates: seq<Outcome>)
    ensures IsTerminal(current) ==> Fold(current, updates) == current
    ensures !IsTerminal(current) && HasTerminal(updates) ==> Fold(current, updates) == FirstTerminal(updates)
    ensures !IsTerminal(current) && !HasTerminal(updates) ==>
      && Fold(current, updates) in [current] + updates
      && forall u :: u in [current] + updates ==> Progression(u) <= Progression(Fold(current, updates))
    decreases |updates|
  {
    if updates != [] {
      var next := Apply(current, updates[0]);
      assert updates == [updates[0]] + updates[1..];
      FoldIs(next, updates[1..]);
      assert HasTerminal(updates[1..]) ==> HasTerminal(updates);
      if !IsTerminal(current) && !IsTerminal(updates[0]) && HasTerminal(updates) {
        var u :| u in updates && IsTerminal(u);
        assert u in updates[1..];
      }
    }
  }

  // A redelivered callback changes nothing.
  lemma Replay(current: Outcome, updates: seq<Outcome>, u: Outcome)
    requires u in updates
    ensures Fold(current, updates + [u]) == Fold(current, updates)
  {
    FoldAppend(current, updates, [u]);
    FoldIs(current, updates);
    if !IsTerminal(current) && HasTerminal(updates) {
      FirstTerminalIs(updates);
    }
    assert Fold(Fold(current, updates), [u]) == Apply(Fold(current, updates), u);
  }

  lemma {:induction false} FoldAppend(current: Outcome, a: seq<Outcome>, b: seq<Outcome>)
    ensures Fold(current, a + b) == Fold(Fold(current, a), b)
    decreases |a|
  {
    if a == [] {
      assert a + b == b;
    } else {
      assert (a + b)[1..] == a[1..] + b;
      FoldAppend(Apply(current, a[0]), a[1..], b);
    }
  }

  lemma {:induction false} FirstTerminalIs(updates: seq<Outcome>)
    requires HasTerminal(updates)
    ensures IsTerminal(FirstTerminal(updates)) && FirstTerminal(updates) in updates
  {
    if !IsTerminal(updates[0]) {
      var u :| u in updates && IsTerminal(u);
      assert updates == [updates[0]] + updates[1..];
      assert u in updates[1..];
      FirstTerminalIs(updates[1..]);
    }
  }

  predicate AtMostOneTerminal(updates: seq<Outcome>) {
    forall u, v :: u in updates && v in updates && IsTerminal(u) && IsTerminal(v) ==> u == v
  }

  ghost predicate OrderIrrelevant(current: Outcome, updates: seq<Outcome>) {
    forall other: seq<Outcome> :: multiset(other) == multiset(updates) ==> Fold(current, other) == Fold(current, updates)
  }

  lemma SameOutcomes(a: seq<Outcome>, b: seq<Outcome>)
    requires multiset(a) == multiset(b)
    ensures forall u :: u in a <==> u in b
  {
    forall u ensures u in a <==> u in b {
      assert u in multiset(a) <==> u in multiset(b);
    }
  }

  // Callbacks to an open attempt may arrive in any order without changing the outcome, exactly when
  // they do not disagree about how the attempt ended.
  lemma OrderIrrelevantExactly(current: Outcome, updates: seq<Outcome>)
    ensures OrderIrrelevant(current, updates) <==> IsTerminal(current) || AtMostOneTerminal(updates)
  {
    if IsTerminal(current) {
      forall other: seq<Outcome> ensures Fold(current, other) == current {
        FoldIs(current, other);
      }
    } else if AtMostOneTerminal(updates) {
      forall other: seq<Outcome> | multiset(other) == multiset(updates) ensures Fold(current, other) == Fold(current, updates) {
        SameOutcomes(other, updates);
        FoldIs(current, other);
        FoldIs(current, updates);
        assert HasTerminal(other) <==> HasTerminal(updates);
        if HasTerminal(updates) {
          FirstTerminalIs(updates);
          FirstTerminalIs(other);
        } else {
          var x, y := Fold(current, other), Fold(current, updates);
          assert x in [current] + updates && y in [current] + other;
          assert Progression(x) == Progression(y);
        }
      }
    } else {
      var u, v :| u in updates && v in updates && IsTerminal(u) && IsTerminal(v) && u != v;
      var i :| 0 <= i < |updates| && updates[i] == u;
      var j :| 0 <= j < |updates| && updates[j] == v;
      MovedToFront(current, updates, i);
      MovedToFront(current, updates, j);
    }
  }

  lemma SameElements<T>(s: seq<T>, i: nat)
    requires i < |s|
    ensures multiset([s[i]] + (s[..i] + s[i + 1..])) == multiset(s)
  {
    assert s == s[..i] + [s[i]] + s[i + 1..];
  }

  lemma MovedToFront(current: Outcome, updates: seq<Outcome>, i: nat)
    requires !IsTerminal(current) && i < |updates| && IsTerminal(updates[i])
    ensures OrderIrrelevant(current, updates) ==> Fold(current, updates) == updates[i]
  {
    var rest := updates[..i] + updates[i + 1..];
    var other := [updates[i]] + rest;
    SameElements(updates, i);
    assert other[1..] == rest;
    FoldIs(updates[i], rest);
    assert Fold(current, other) == Fold(Apply(current, updates[i]), rest) == updates[i];
  }
}
