/** The automated answer to a borrower's text (outboxProcessing.ts, processInboundSmsAiReply): write the
    reply down, send it, write the result down, with the database as the store. An execution can be cut off
    at any await, or a save of its can throw and leave the unsaved copy in the instance; the job is then
    repeated, there or elsewhere. A save that is stored puts new objects in place of those the copy had, so
    what the execution took hold of before it is no longer part of the copy. */
module ReplyJob {
  import opened Common
  import opened DeliveryStatus

  const WITHHELD := "Automated reply withheld."

  datatype Attempt = Attempt(body: string, outcome: Outcome)

  // What is stored of this job and its lead, at which revision.
  datatype Row = Row(attempt: Option<Attempt>, attemptsTotal: int, revision: nat)

  // What an instance holds unsaved: its attempt, the increments of the counter it adds, and the revision
  // it holds them against.
  datatype Copy = Copy(attempt: Option<Attempt>, increments: nat, revision: nat)

  // sent is what the carrier was handed, in order.
  datatype State = State(row: Row, unsaved: map<nat, Copy>, sent: seq<string>)

  // How an execution goes: the instance dies before the first save is stored, before the carrier call, or
  // after it with the result not stored; the first or the last save throws; or all goes well.
  datatype Course = DiesBeforeSave | SaveThrows | DiesBeforeSend | DiesBeforeResult | ResultThrows | ToTheEnd

  // What one execution meets: a reason to withhold, the generated reply, the carrier's answer, its course,
  // and what another instance's save adds to the lead's counter while the carrier is being asked, if there is one.
  datatype Env = Env(blocked: bool, reply: string, accepted: bool, course: Course, during: Option<int>)

  // Which of the objects an execution works on are still those of the copy.
  datatype Hold = Hold(attempt: bool, lead: bool)

  const SUCCESSFUL: set<Outcome> := {SENT, DELIVERED, ANSWERED}

  predicate Usable(body: string) {
    body != "" && body != WITHHELD
  }

  predicate HasReply(a: Option<Attempt>) {
    a.Some? && Usable(a.value.body)
  }

  predicate Succeeded(a: Option<Attempt>) {
    a.Some? && a.value.outcome in SUCCESSFUL
  }

  // The forced refresh: the instance reloads exactly when the row has moved on from its copy.
  function Refreshed(s: State, j: nat): Copy {
    if j in s.unsaved && s.unsaved[j].revision == s.row.revision then s.unsaved[j] else Copy(s.row.attempt, 0, s.row.revision)
  }

  // A stored copy. The merge takes the counter as a plain value: one the copy raised replaces the row's, from
  // wherever the copy had it; one it did not touch stays the row's.
  function Save(s: State, j: nat, c: Copy, counted: int): State {
    s.(row := Row(c.attempt, if c.increments > 0 then counted + c.increments else s.row.attemptsTotal, s.row.revision + 1),
       unsaved := s.unsaved - {j})
  }

  // Other work on the lead.
  function Moved(row: Row, delta: int): Row {
    row.(attemptsTotal := row.attemptsTotal + delta, revision := row.revision + 1)
  }

  // A copy that stays in the instance.
  function Keep(s: State, j: nat, c: Copy): State {
    s.(unsaved := s.unsaved[j := c])
  }

  function Die(s: State, j: nat): State {
    s.(unsaved := s.unsaved - {j})
  }

  function Execute(s: State, j: nat, e: Env): State {
    var c := Refreshed(s, j);
    if Succeeded(c.attempt) then Keep(s, j, c)
    else if e.blocked then
      if c.attempt.Some? then Keep(s, j, c)
      else Wrote(s, j, c.(attempt := Some(Attempt(WITHHELD, BLOCKED))), e.course)
    else if HasReply(c.attempt) then Deliver(Keep(s, j, c), j, c, e, Hold(true, true))
    else
      var written := c.(attempt := Some(Attempt(e.reply, QUEUED)));
      var after := Wrote(s, j, written, e.course);
      if e.course == DiesBeforeSave || e.course == SaveThrows then after
      else Deliver(after, j, Copy(written.attempt, 0, after.row.revision), e, HoldAfterSave(s))
  }

  // A save keeps the object of a record that is new to the row and replaces all others.
  function HoldAfterSave(s: State): Hold {
    Hold(s.row.attempt == None, false)
  }

  function Wrote(s: State, j: nat, c: Copy, course: Course): State {
    if course == DiesBeforeSave then Die(s, j) else if course == SaveThrows then Keep(s, j, c) else Save(s, j, c, s.row.attemptsTotal)
  }

  // What the copy is after the carrier's answer: marks on objects it no longer has are lost.
  function Answered(c: Copy, accepted: bool, hold: Hold): Copy
    requires c.attempt.Some?
  {
    Copy(if hold.attempt then Some(Attempt(c.attempt.value.body, if accepted then SENT else FAILED)) else c.attempt,
         if hold.lead && accepted then c.increments + 1 else c.increments, c.revision)
  }

  // With a reply at hand. Nothing is saved before the carrier call, so a save cannot throw there.
  function Deliver(s: State, j: nat, c: Copy, e: Env, hold: Hold): State
    requires c.attempt.Some?
  {
    var body := c.attempt.value.body;
    if e.course == DiesBeforeSave || e.course == SaveThrows || e.course == DiesBeforeSend then Die(s, j)
    else
      var handed := s.(sent := s.sent + [body], row := if e.during.Some? then Moved(s.row, e.during.value) else s.row);
      var result := Answered(c, e.accepted, hold);
      if e.course == DiesBeforeResult then Die(handed, j)
      else if e.course == ResultThrows then Keep(handed, j, result)
      else Save(handed, j, result, s.row.attemptsTotal)
  }

  class Job {
    var attempt: Option<Attempt>
    var attemptsTotal: int
    var revision: nat
    var unsaved: map<nat, Copy>
    ghost var sent: seq<string>

    constructor (attemptsTotal: int)
      ensures View() == Start(attemptsTotal)
    {
      attempt := None;
      this.attemptsTotal := attemptsTotal;
      revision := 0;
      unsaved := map[];
      sent := [];
    }

    ghost function View(): State
      reads this
    {
      State(Row(attempt, attemptsTotal, revision), unsaved, sent)
    }

    method Commit(j: nat, c: Copy, counted: int)
      modifies this
      ensures View() == Save(old(View()), j, c, counted)
    {
      attempt, revision := c.attempt, revision + 1;
      if c.increments > 0 {
        attemptsTotal := counted + c.increments;
      }
      unsaved := unsaved - {j};
    }

    // The save before the carrier is asked, or instead of asking it.
    method WriteDown(j: nat, copy: Copy, course: Course)
      modifies this
      ensures View() == Wrote(old(View()), j, copy, course)
    {
      if course == DiesBeforeSave {
        unsaved := unsaved - {j};
      } else if course == SaveThrows {
        unsaved := unsaved[j := copy];
      } else {
        Commit(j, copy, attemptsTotal);
      }
    }

    // The carrier call and what becomes of its answer; copy has a reply.
    method HandOver(j: nat, copy: Copy, e: Env, hold: Hold)
      requires copy.attempt.Some?
      modifies this
      ensures View() == Deliver(old(View()), j, copy, e, hold)
    {
      if e.course == DiesBeforeSave || e.course == SaveThrows || e.course == DiesBeforeSend {
        unsaved := unsaved - {j};
        return;
      }
      var body, counted := copy.attempt.value.body, attemptsTotal;
      sent := sent + [body];
      if e.during.Some? {
        attemptsTotal, revision := attemptsTotal + e.during.value, revision + 1;
      }
      var result := copy;
      if hold.attempt {
        result := result.(attempt := Some(Attempt(body, if e.accepted then SENT else FAILED)));
      }
      if hold.lead && e.accepted {
        result := result.(increments := result.increments + 1);
      }
      if e.course == DiesBeforeResult {
        unsaved := unsaved - {j};
      } else if e.course == ResultThrows {
        unsaved := unsaved[j := result];
      } else {
        Commit(j, result, counted);
      }
    }

    // One execution on instance j; copy is what that instance has in memory.
    method Process(j: nat, e: Env)
      modifies this
      ensures View() == Execute(old(View()), j, e)
    {
      var copy := if j in unsaved && unsaved[j].revision == revision then unsaved[j] else Copy(attempt, 0, revision);
      var existing, hold := copy.attempt, Hold(true, true);
      if existing.Some? && existing.value.outcome in SUCCESSFUL {
        unsaved := unsaved[j := copy];
        return;
      }
      if e.blocked {
        if existing == None {
          WriteDown(j, copy.(attempt := Some(Attempt(WITHHELD, BLOCKED))), e.course);
        } else {
          unsaved := unsaved[j := copy];
        }
        return;
      }
      if existing == None || existing.value.body == "" || existing.value.body == WITHHELD {
        hold := Hold(attempt == None, false);
        copy := copy.(attempt := Some(Attempt(e.reply, QUEUED)));
        WriteDown(j, copy, e.course);
        if e.course == DiesBeforeSave || e.course == SaveThrows {
          return;
        }
        copy := Copy(copy.attempt, 0, revision);
      }
      HandOver(j, copy, e, hold);
    }
  }

  // ----- whole lives of one job

  // Executions on any instance, interleaved with the carrier's later reports on the stored attempt, with
  // other work that moves the lead's counter, with other work of an instance that saves what it holds
  // while the row has not moved, and with instances coming to an end.
  datatype Event =
    | Executed(j: nat, e: Env)
    | Reported(outcome: Outcome)
    | Elsewhere(delta: int)
    | Flushed(j: nat)
    | Ended(j: nat)

  function Start(attemptsTotal: int): State {
    State(Row(None, attemptsTotal, 0), map[], [])
  }

  function Next(s: State, event: Event): State {
    match event
    case Executed(j, e) => Execute(s, j, e)
    case Reported(outcome) =>
      if Succeeded(s.row.attempt)
      then s.(row := Row(Some(s.row.attempt.value.(outcome := outcome)), s.row.attemptsTotal, s.row.revision + 1)) else s
    case Elsewhere(delta) => s.(row := Moved(s.row, delta))
    case Flushed(j) => if j in s.unsaved && s.unsaved[j].revision == s.row.revision then Save(s, j, s.unsaved[j], s.row.attemptsTotal) else s
    case Ended(j) => Die(s, j)
  }

  function Run(s: State, events: seq<Event>): State
    decreases |events|
  {
    if events == [] then s else Run(Next(s, events[0]), events[1..])
  }

  // An execution that asks the carrier.
  predicate Asks(s: State, j: nat, e: Env) {
    var attempt := Refreshed(s, j).attempt;
    && !e.blocked && !Succeeded(attempt)
    && e.course in {DiesBeforeResult, ResultThrows, ToTheEnd}
  }

  function WorkIn(s: State, event: Event): int {
    match event
    case Elsewhere(delta) => delta
    case Executed(j, e) => if Asks(s, j, e) && e.during.Some? then e.during.value else 0
    case _ => 0
  }

  // What the other work on the lead added up to.
  function OtherWork(s: State, events: seq<Event>): int
    decreases |events|
  {
    if events == [] then 0 else WorkIn(s, events[0]) + OtherWork(Next(s, events[0]), events[1..])
  }

  // An execution that takes up a reply written down before and stores that the carrier accepted it. Only
  // here no save comes between its reading the lead and its raising the counter.
  predicate TakesUp(s: State, event: Event) {
    && event.Executed? && Asks(s, event.j, event.e) && event.e.accepted && event.e.course == ToTheEnd
    && HasReply(Refreshed(s, event.j).attempt)
  }

  // The increments an event stores: its own, or those an instance kept from a result it could not save.
  function CountsIn(s: State, event: Event): nat {
    match event
    case Executed(_, _) => if TakesUp(s, event) then 1 else 0
    case Flushed(j) => if j in s.unsaved && s.unsaved[j].revision == s.row.revision then s.unsaved[j].increments else 0
    case _ => 0
  }

  function Counted(s: State, events: seq<Event>): nat
    decreases |events|
  {
    if events == [] then 0 else CountsIn(s, events[0]) + Counted(Next(s, events[0]), events[1..])
  }

  // The part of the other work that such an execution overwrites, as the counter moved meanwhile.
  function LostIn(s: State, event: Event): int {
    if TakesUp(s, event) then WorkIn(s, event) else 0
  }

  function LostWork(s: State, events: seq<Event>): int
    decreases |events|
  {
    if events == [] then 0 else LostIn(s, events[0]) + LostWork(Next(s, events[0]), events[1..])
  }

  // The reply generated is usable and no report takes a success back.
  predicate IsOrdinary(event: Event) {
    && (event.Executed? ==> Usable(event.e.reply))
    && (event.Reported? ==> event.outcome in SUCCESSFUL)
  }

  predicate Ordinary(events: seq<Event>)
    decreases |events|
  {
    events == [] || (IsOrdinary(events[0]) && Ordinary(events[1..]))
  }

  // An unsaved copy that is up to date builds on the row: it has the row's reply if there is one, repeats a
  // stored success, and brings an increment only with a success the row does not have, and then one.
  predicate CopyOk(row: Row, c: Copy) {
    && c.revision <= row.revision
    && (c.revision == row.revision ==>
          && (HasReply(row.attempt) ==> c.attempt.Some? && c.attempt.value.body == row.attempt.value.body)
          && (Succeeded(row.attempt) ==> c.attempt == row.attempt)
          && c.increments <= (if Succeeded(c.attempt) && !Succeeded(row.attempt) then 1 else 0))
  }

  // A success was sent, with a usable reply.
  predicate WasSent(a: Option<Attempt>, sent: seq<string>) {
    Succeeded(a) ==> HasReply(a) && a.value.body in sent
  }

  ghost predicate Inv(s: State) {
    && WasSent(s.row.attempt, s.sent)
    && forall j :: j in s.unsaved ==> CopyOk(s.row, s.unsaved[j]) && WasSent(s.unsaved[j].attempt, s.sent)
  }

  lemma NextKeepsInv(s: State, event: Event)
    requires Inv(s) && IsOrdinary(event)
    ensures Inv(Next(s, event))
  {
    if event.Executed? {
      ExecuteKeepsInv(s, event.j, event.e);
    }
  }

  lemma DeliverKeepsInv(s: State, j: nat, c: Copy, e: Env, hold: Hold)
    requires Inv(s) && c.revision == s.row.revision && CopyOk(s.row, c) && HasReply(c.attempt) && !Succeeded(c.attempt)
    requires hold.lead ==> hold.attempt
    ensures Inv(Deliver(s, j, c, e, hold))
  {
    var t := Deliver(s, j, c, e, hold);
    assert t.sent == s.sent || (t.sent == s.sent + [c.attempt.value.body] && c.attempt.value.body in t.sent);
  }

  lemma ExecuteKeepsInv(s: State, j: nat, e: Env)
    requires Inv(s) && Usable(e.reply)
    ensures Inv(Execute(s, j, e))
  {
    var c := Refreshed(s, j);
    if !Succeeded(c.attempt) && !e.blocked {
      if HasReply(c.attempt) {
        DeliverKeepsInv(Keep(s, j, c), j, c, e, Hold(true, true));
      } else {
        var written := c.(attempt := Some(Attempt(e.reply, QUEUED)));
        var after := Wrote(s, j, written, e.course);
        if e.course != DiesBeforeSave && e.course != SaveThrows {
          DeliverKeepsInv(after, j, Copy(written.attempt, 0, after.row.revision), e, HoldAfterSave(s));
        }
      }
    }
  }

  // ----- how often a success is counted, over every life

  lemma NextCounts(s: State, event: Event)
    requires Inv(s) && IsOrdinary(event)
    ensures var t := Next(s, event);
      && t.row.attemptsTotal == s.row.attemptsTotal + WorkIn(s, event) - LostIn(s, event) + CountsIn(s, event)
      && CountsIn(s, event) <= (if Succeeded(t.row.attempt) && !Succeeded(s.row.attempt) then 1 else 0)
      && (Succeeded(s.row.attempt) ==> Succeeded(t.row.attempt) && t.sent == s.sent && LostIn(s, event) == 0)
  {
    if event.Executed? {
      ExecuteCounts(s, event.j, event.e);
    }
  }

  lemma ExecuteCounts(s: State, j: nat, e: Env)
    requires Inv(s) && Usable(e.reply)
    ensures var t, event := Execute(s, j, e), Executed(j, e);
      && t.row.attemptsTotal == s.row.attemptsTotal + WorkIn(s, event) - LostIn(s, event) + CountsIn(s, event)
      && CountsIn(s, event) <= (if Succeeded(t.row.attempt) && !Succeeded(s.row.attempt) then 1 else 0)
      && (Succeeded(s.row.attempt) ==> Succeeded(t.row.attempt) && t.sent == s.sent && LostIn(s, event) == 0)
  {
    var c := Refreshed(s, j);
    if !Succeeded(c.attempt) && !e.blocked && HasReply(c.attempt) {
      TakingUpCounts(s, j, c, e);
    }
  }

  // With a reply that was written down.
  lemma TakingUpCounts(s: State, j: nat, c: Copy, e: Env)
    requires c == Refreshed(s, j) && CopyOk(s.row, c) && c.revision == s.row.revision && HasReply(c.attempt) && !Succeeded(c.attempt)
    ensures var t := Deliver(Keep(s, j, c), j, c, e, Hold(true, true));
            var asks, during := e.course in {DiesBeforeResult, ResultThrows, ToTheEnd}, if e.during.Some? then e.during.value else 0;
            var stores := asks && e.accepted && e.course == ToTheEnd;
      && t.row.attemptsTotal == s.row.attemptsTotal + (if stores then 1 else if asks then during else 0)
      && (stores ==> Succeeded(t.row.attempt))
  {
  }

  lemma {:induction false} RunCounts(s: State, events: seq<Event>)
    requires Inv(s) && Ordinary(events)
    ensures var t := Run(s, events);
      && Inv(t)
      && (Succeeded(s.row.attempt) ==> Succeeded(t.row.attempt) && t.sent == s.sent && LostWork(s, events) == 0)
      && t.row.attemptsTotal == s.row.attemptsTotal + OtherWork(s, events) - LostWork(s, events) + Counted(s, events)
      && Counted(s, events) <= (if Succeeded(t.row.attempt) && !Succeeded(s.row.attempt) then 1 else 0)
    decreases |events|
  {
    if events != [] {
      NextKeepsInv(s, events[0]);
      NextCounts(s, events[0]);
      RunCounts(Next(s, events[0]), events[1..]);
    }
  }

  // ----- what one execution does

  // The attempt the execution finds: its instance's own, unless the row has moved on.
  function Found(s: State, j: nat): Option<Attempt> {
    if j in s.unsaved && s.unsaved[j].revision == s.row.revision then s.unsaved[j].attempt else s.row.attempt
  }

  ghost predicate IsSuccess(a: Option<Attempt>) {
    a.Some? && (a.value.outcome == SENT || a.value.outcome == DELIVERED || a.value.outcome == ANSWERED)
  }

  ghost predicate IsWritten(a: Option<Attempt>) {
    a.Some? && a.value.body != "" && a.value.body != "Automated reply withheld."
  }

  // The carrier is handed something exactly if nothing withholds the reply, the attempt found is no success,
  // and the execution gets so far; and then the reply written down, if there is one, else the new one.
  lemma SendsExactly(s: State, j: nat, e: Env)
    ensures var found := Found(s, j);
            var sends := !e.blocked && !IsSuccess(found) && (e.course == DiesBeforeResult || e.course == ResultThrows || e.course == ToTheEnd);
            Execute(s, j, e).sent == if sends then s.sent + [if IsWritten(found) then found.value.body else e.reply] else s.sent
  {
  }

  // What the execution leaves unsaved in its instance: nothing if that dies or all was saved; what it found,
  // refreshed, if there was nothing to do; and else what the save that threw was to store.
  lemma LeavesExactly(s: State, j: nat, e: Env)
    ensures var found, c, t := Found(s, j), Refreshed(s, j), Execute(s, j, e).unsaved;
            var idle := IsSuccess(found) || (e.blocked && found.Some?);
      && c.attempt == found && c.revision == s.row.revision
      && (idle ==> Lookup(t, j) == Some(c))
      && (!idle && e.course != SaveThrows && e.course != ResultThrows ==> j !in t)
      && (!idle && e.blocked && e.course == SaveThrows ==> j in t && t[j].attempt == Some(Attempt("Automated reply withheld.", Outcome.BLOCKED)))
      && (!idle && !e.blocked && !IsWritten(found) && e.course == SaveThrows ==> j in t && t[j].attempt == Some(Attempt(e.reply, QUEUED)))
      && (!idle && !e.blocked && e.course == ResultThrows ==> j in t && t[j].attempt.Some?)
      && forall k :: k != j ==> Lookup(t, k) == Lookup(s.unsaved, k)
  {
  }

  // What is stored of the attempt when the execution is over.
  lemma StoresExactly(s: State, j: nat, e: Env)
    ensures var found, stored, t := Found(s, j), s.row.attempt, Execute(s, j, e).row.attempt;
            var result := if e.accepted then SENT else Outcome.FAILED;
            var saves := e.course != DiesBeforeSave && e.course != SaveThrows;
      && (IsSuccess(found) ==> t == stored)
      && (!IsSuccess(found) && e.blocked ==>
            t == if found == None && saves then Some(Attempt("Automated reply withheld.", Outcome.BLOCKED)) else stored)
      && (!IsSuccess(found) && !e.blocked && IsWritten(found) ==>
            t == if e.course == ToTheEnd then Some(Attempt(found.value.body, result)) else stored)
      && (!IsSuccess(found) && !e.blocked && !IsWritten(found) ==>
            t == if !saves then stored else Some(Attempt(e.reply, if e.course == ToTheEnd && stored == None then result else QUEUED)))
  {
  }

  // An execution that asks the carrier, is accepted and goes on to its end stores the success exactly if
  // the reply was written down before it or the attempt is new with it, and counts it exactly if the
  // reply was written down before it.
  lemma ResultIsStoredExactly(s: State, j: nat, e: Env)
    requires Inv(s) && Asks(s, j, e) && e.accepted && e.course == ToTheEnd && Usable(e.reply)
    ensures var t, takesUp := Execute(s, j, e), HasReply(Refreshed(s, j).attempt);
      && |t.sent| == |s.sent| + 1
      && (Succeeded(t.row.attempt) <==> takesUp || s.row.attempt == None)
      && t.row.attemptsTotal == s.row.attemptsTotal + (if takesUp then 1 else if e.during.Some? then e.during.value else 0)
  {
  }

  // So in the ordinary course of things, one execution from the beginning to the end, the success is never
  // counted, whatever comes after.
  lemma FirstSendIsNeverCounted(attemptsTotal: int, j: nat, reply: string, during: Option<int>, rest: seq<Event>)
    requires Usable(reply) && Ordinary(rest)
    ensures var once := Next(Start(attemptsTotal), Executed(j, Env(false, reply, true, ToTheEnd, during)));
            var t := Run(once, rest);
      && once.sent == [reply] && Succeeded(once.row.attempt) && t.sent == [reply] && Succeeded(t.row.attempt)
      && t.row.attemptsTotal == attemptsTotal + (if during.Some? then during.value else 0) + OtherWork(once, rest)
  {
    var first := Executed(j, Env(false, reply, true, ToTheEnd, during));
    NextKeepsInv(Start(attemptsTotal), first);
    RunCounts(Next(Start(attemptsTotal), first), rest);
  }

  // And where a reply was withheld once, the next execution sends one and leaves the attempt as QUEUED.
  lemma WithheldThenSentStaysQueued(s: State, j: nat, reply: string)
    requires s.row.attempt.Some? && !Usable(s.row.attempt.value.body) && !Succeeded(s.row.attempt) && j !in s.unsaved && Usable(reply)
    ensures var t := Next(s, Executed(j, Env(false, reply, true, ToTheEnd, None)));
      && t.sent == s.sent + [reply] && t.row.attempt == Some(Attempt(reply, QUEUED))
      && t.row.attemptsTotal == s.row.attemptsTotal
  {
  }

  // ----- when every carrier call carries the same reply

  // The row holds a usable reply, and it is all that was ever sent.
  ghost predicate Pinned(s: State) {
    HasReply(s.row.attempt) && forall i :: 0 <= i < |s.sent| ==> s.sent[i] == s.row.attempt.value.body
  }

  lemma NextStaysPinned(s: State, event: Event)
    requires Inv(s) && Pinned(s)
    ensures Pinned(Next(s, event)) && Next(s, event).row.attempt.value.body == s.row.attempt.value.body
  {
  }

  lemma {:induction false} StaysPinned(s: State, events: seq<Event>)
    requires Inv(s) && Pinned(s) && Ordinary(events)
    ensures Pinned(Run(s, events)) && Run(s, events).row.attempt.value.body == s.row.attempt.value.body
    decreases |events|
  {
    if events != [] {
      NextKeepsInv(s, events[0]);
      NextStaysPinned(s, events[0]);
      StaysPinned(Next(s, events[0]), events[1..]);
    }
  }

  predicate AllAlike(bodies: seq<string>) {
    forall i, j :: 0 <= i < j < |bodies| ==> bodies[i] == bodies[j]
  }

  // Every life that goes on from here keeps to one reply.
  ghost predicate OneReplyFromHere(s: State) {
    forall rest :: Ordinary(rest) ==> AllAlike(Run(s, rest).sent)
  }

  // An execution that goes well on a fresh instance.
  function Well(j: nat, reply: string): Event {
    Executed(j, Env(false, reply, true, ToTheEnd, None))
  }

  lemma RunOne(s: State, event: Event)
    ensures Run(s, [event]) == Next(s, event) && (IsOrdinary(event) ==> Ordinary([event]))
  {
    assert [event][1..] == [];
    assert Run(s, [event]) == Run(Next(s, event), []);
  }

  lemma RunMore(s: State, event: Event, rest: seq<Event>)
    ensures Run(s, [event] + rest) == Run(Next(s, event), rest)
    ensures Ordinary([event] + rest) <==> IsOrdinary(event) && Ordinary(rest)
  {
    assert ([event] + rest)[1..] == rest;
  }

  // A save of the reply throws, the instance goes on with its copy all the same, hands the reply to the
  // carrier and dies; another instance finds nothing stored and generates its own.
  lemma TwoRepliesGoOut(s: State, a: nat, b: nat) returns (rest: seq<Event>)
    requires !HasReply(s.row.attempt) && !Succeeded(s.row.attempt) && a !in s.unsaved && b !in s.unsaved && a != b
    ensures Ordinary(rest) && Run(s, rest).sent == s.sent + ["a"] + ["b"]
  {
    var throws, dies := Executed(a, Env(false, "a", true, SaveThrows, None)), Executed(a, Env(false, "a", true, DiesBeforeResult, None));
    var thrown := Next(s, throws);
    assert thrown.row == s.row && thrown.sent == s.sent && thrown.unsaved[a].attempt == Some(Attempt("a", QUEUED));
    var died := Next(thrown, dies);
    assert died.row == s.row && died.sent == s.sent + ["a"] && b !in died.unsaved;
    assert Next(died, Well(b, "b")).sent == died.sent + ["b"];
    rest := [throws] + ([dies] + [Well(b, "b")]);
    RunMore(s, throws, [dies] + [Well(b, "b")]);
    RunMore(thrown, dies, [Well(b, "b")]);
    RunOne(died, Well(b, "b"));
  }

  // From any moment of any life on, every continuation keeps to one reply exactly if that reply is in the
  // row. Until the first save is stored there always is a continuation in which two different ones go out.
  lemma OneReplyExactly(s: State, a: nat, b: nat)
    requires Inv(s) && a !in s.unsaved && b !in s.unsaved && a != b
    ensures OneReplyFromHere(s) <==> Pinned(s)
  {
    if Pinned(s) {
      forall rest | Ordinary(rest) ensures AllAlike(Run(s, rest).sent) {
        StaysPinned(s, rest);
      }
    } else if !HasReply(s.row.attempt) {
      var rest := TwoRepliesGoOut(s, a, b);
      var sent := Run(s, rest).sent;
      assert sent[|s.sent|] == "a" && sent[|s.sent| + 1] == "b" && "a"[0] != "b"[0];
    } else {
      OtherReplyWasSent(s, a);
    }
  }

  lemma OtherReplyWasSent(s: State, a: nat)
    requires Inv(s) && HasReply(s.row.attempt) && !Pinned(s) && a !in s.unsaved
    ensures !OneReplyFromHere(s)
  {
    var body := s.row.attempt.value.body;
    var i :| 0 <= i < |s.sent| && s.sent[i] != body;
    if Succeeded(s.row.attempt) {
      var j :| 0 <= j < |s.sent| && s.sent[j] == body;
      assert Ordinary([]) && Run(s, []) == s;
      assert !AllAlike(s.sent);
    } else {
      RunOne(s, Well(a, "a"));
      var sent := Next(s, Well(a, "a")).sent;
      assert sent == s.sent + [body];
      assert sent[i] != sent[|s.sent|];
    }
  }

  // An execution that takes up a reply its instance never got stored, hands it to the carrier, and does not
  // get the result stored either.
  predicate Risky(s: State, event: Event) {
    && event.Executed? && !event.e.blocked && event.e.course in {DiesBeforeResult, ResultThrows}
    && var c := Refreshed(s, event.j).attempt; HasReply(c) && !Succeeded(c) && !HasReply(s.row.attempt)
  }

  ghost predicate SentIsStored(s: State) {
    s.sent == [] || Pinned(s)
  }

  // One step leaves something sent that is not stored exactly if it is such an execution.
  lemma RiskyExactly(s: State, event: Event)
    requires Inv(s) && SentIsStored(s) && IsOrdinary(event)
    ensures SentIsStored(Next(s, event)) <==> !Risky(s, event)
  {
    if Pinned(s) {
      NextStaysPinned(s, event);
    }
  }

  predicate NoRisk(s: State, events: seq<Event>)
    decreases |events|
  {
    events == [] || (!Risky(s, events[0]) && NoRisk(Next(s, events[0]), events[1..]))
  }

  ghost predicate AlwaysStored(s: State, events: seq<Event>)
    decreases |events|
  {
    SentIsStored(s) && (events == [] || AlwaysStored(Next(s, events[0]), events[1..]))
  }

  lemma {:induction false} AlwaysStoredExactly(s: State, events: seq<Event>)
    requires Inv(s) && SentIsStored(s) && Ordinary(events)
    ensures AlwaysStored(s, events) <==> NoRisk(s, events)
    ensures NoRisk(s, events) ==> SentIsStored(Run(s, events))
    decreases |events|
  {
    if events != [] {
      NextKeepsInv(s, events[0]);
      RiskyExactly(s, events[0]);
      if !Risky(s, events[0]) {
        AlwaysStoredExactly(Next(s, events[0]), events[1..]);
      }
    }
  }

  // Whatever crashes, refusals, thrown saves and repeats a job goes through on however many instances:
  // nothing is sent after a stored success; the lead's stored counter has gone up by the other work on it,
  // less what was overwritten, and by one at most, for a success that is stored - by one exactly if it came
  // from an execution that took up a reply written down before; and what was sent is at every moment the
  // stored reply and nothing else exactly if no execution was a risky one.
  lemma EveryLifeOfAJob(attemptsTotal: int, before: seq<Event>, after: seq<Event>)
    requires Ordinary(before) && Ordinary(after)
    ensures var s := Run(Start(attemptsTotal), before);
            var t := Run(s, after);
      && (Succeeded(s.row.attempt) ==> t.sent == s.sent)
      && t.row.attemptsTotal == attemptsTotal + OtherWork(Start(attemptsTotal), before) + OtherWork(s, after)
                                - LostWork(Start(attemptsTotal), before) - LostWork(s, after)
                                + Counted(Start(attemptsTotal), before) + Counted(s, after)
      && Counted(Start(attemptsTotal), before) + Counted(s, after) <= (if Succeeded(t.row.attempt) then 1 else 0)
      && (AlwaysStored(Start(attemptsTotal), before) <==> NoRisk(Start(attemptsTotal), before))
      && (NoRisk(Start(attemptsTotal), before) ==> AllAlike(s.sent))
  {
    RunCounts(Start(attemptsTotal), before);
    RunCounts(Run(Start(attemptsTotal), before), after);
    AlwaysStoredExactly(Start(attemptsTotal), before);
  }

  // A first reply that was stored, sent and then cut off: every continuation repeats it exactly if it is
  // usable. An empty one, or one that happens to read like the placeholder, is generated again.
  lemma SameReplyExactly(attemptsTotal: int, first: string, accepted: bool)
    ensures OneReplyFromHere(Next(Start(attemptsTotal), Executed(0, Env(false, first, accepted, DiesBeforeResult, None)))) <==> Usable(first)
  {
    var once := Next(Start(attemptsTotal), Executed(0, Env(false, first, accepted, DiesBeforeResult, None)));
    assert once == State(Row(Some(Attempt(first, QUEUED)), attemptsTotal, 1), map[], [first]);
    if Usable(first) {
      OneReplyExactly(once, 1, 2);
    } else {
      RunOne(once, Well(1, "a"));
      var sent := Next(once, Well(1, "a")).sent;
      assert sent == [first, "a"] && first != "a";
      assert sent[0] != sent[1];
    }
  }
}
