/** The conversation thread derived from attempts, calls and notes (conversationThread.ts). */
module Thread {
  import opened Common
  import opened Sorting

  datatype Channel = VOICE | SMS | EMAIL | PORTAL
  datatype Role = BORROWER | AGENT | OFFICER | SYSTEM

  datatype Turn = Turn(at: int, byBorrower: bool, text: string)
  datatype Conversation = Conversation(id: string, attemptId: Option<string>, channel: Channel, transcript: seq<Turn>)

  // at is startedAt or else scheduledFor; body is already trimmed; logged: an officer logged it.
  datatype Attempt =
    Attempt(id: string, channel: Channel, inbound: bool, aiGenerated: bool, logged: bool, at: int, body: string, blocked: bool)

  // authorChannel is what the author's name says about the channel.
  datatype Note =
    Note(id: string, authorId: string, authorChannel: Channel, channel: Option<Channel>, role: Option<Role>, at: int, body: string)

  const BORROWER_AUTHOR_ID := "borrower"
  const AGENT_AUTHOR_ID := "ai-agent"

  // What a message was made from: a turn is known by its call and its place in the transcript.
  datatype Origin = Intake | OfTurn(conversation: string, place: nat) | OfAttempt(attempt: string) | OfNote(note: string)
  datatype Message = Message(origin: Origin, at: int, channel: Channel, role: Role, text: string)

  // What the borrower told the form, already put into words.
  datatype Form = Form(at: int, text: string)

  datatype Input = Input(intake: Option<Form>, attempts: seq<Attempt>, conversations: seq<Conversation>, notes: seq<Note>)

  // The last conversation linked to an attempt.
  function Linked(conversations: seq<Conversation>, attempt: string): Option<Conversation> {
    if conversations == [] then None
    else
      var last := conversations[|conversations| - 1];
      if last.attemptId == Some(attempt) then Some(last) else Linked(conversations[..|conversations| - 1], attempt)
  }

  function TurnMessage(c: Conversation, channel: Channel, k: nat): Message
    requires k < |c.transcript|
  {
    var t := c.transcript[k];
    Message(OfTurn(c.id, k), t.at, channel, if t.byBorrower then BORROWER else AGENT, t.text)
  }

  function Turns(c: Conversation, channel: Channel): seq<Message> {
    seq(|c.transcript|, k requires 0 <= k < |c.transcript| => TurnMessage(c, channel, k))
  }

  function AttemptText(a: Attempt): string {
    if a.body != "" then a.body else if a.channel == VOICE then "Call placed." else ""
  }

  function AttemptRole(a: Attempt): Role {
    if a.inbound then BORROWER else if a.aiGenerated then AGENT else if a.logged then OFFICER else SYSTEM
  }

  function AttemptRow(a: Attempt): seq<Message> {
    var text := AttemptText(a);
    if text == "" && !a.blocked then []
    else [Message(OfAttempt(a.id), a.at, a.channel, AttemptRole(a), if text == "" then "Outreach blocked before sending." else text)]
  }

  // An officer's private note is not part of the conversation.
  function NoteMessage(n: Note): seq<Message> {
    if n.channel == None && n.authorId != BORROWER_AUTHOR_ID && n.authorId != AGENT_AUTHOR_ID then []
    else [Message(OfNote(n.id), n.at,
                  if n.channel.Some? then n.channel.value else n.authorChannel,
                  if n.role.Some? then n.role.value else if n.authorId == AGENT_AUTHOR_ID then AGENT else BORROWER, n.body)]
  }

  function FromNotes(notes: seq<Note>): seq<Message> {
    if notes == [] then [] else FromNotes(notes[..|notes| - 1]) + NoteMessage(notes[|notes| - 1])
  }

  function HasTurns(conversations: seq<Conversation>, a: Attempt): bool {
    var c := Linked(conversations, a.id);
    c.Some? && c.value.transcript != []
  }

  // The transcript where there is one, else the attempt itself.
  function FromAttempt(conversations: seq<Conversation>, a: Attempt): seq<Message> {
    if HasTurns(conversations, a) then Turns(Linked(conversations, a.id).value, a.channel) else AttemptRow(a)
  }

  function FromAttempts(conversations: seq<Conversation>, attempts: seq<Attempt>): seq<Message> {
    if attempts == [] then []
    else FromAttempts(conversations, attempts[..|attempts| - 1]) + FromAttempt(conversations, attempts[|attempts| - 1])
  }

  function SeenIds(conversations: seq<Conversation>, attempts: seq<Attempt>): set<string> {
    if attempts == [] then {}
    else
      var c := Linked(conversations, attempts[|attempts| - 1].id);
      SeenIds(conversations, attempts[..|attempts| - 1]) + if c.Some? then {c.value.id} else {}
  }

  function FromUnseen(conversations: seq<Conversation>, seen: set<string>): seq<Message> {
    if conversations == [] then []
    else
      var last := conversations[|conversations| - 1];
      FromUnseen(conversations[..|conversations| - 1], seen) + if last.id in seen then [] else Turns(last, last.channel)
  }

  function IntakeMessage(form: Form): Message {
    Message(Intake, form.at, PORTAL, BORROWER, form.text)
  }

  function Opening(intake: Option<Form>): seq<Message> {
    if intake.Some? then [IntakeMessage(intake.value)] else []
  }

  function Gathered(input: Input): seq<Message> {
    Opening(input.intake)
    + FromAttempts(input.conversations, input.attempts)
    + FromUnseen(input.conversations, SeenIds(input.conversations, input.attempts))
    + FromNotes(input.notes)
  }

  function ByTime(): Message -> int {
    (m: Message) => m.at
  }

  function ThreadOf(input: Input): seq<Message> {
    SortBy(Gathered(input), ByTime())
  }

  method LinkConversations(conversations: seq<Conversation>) returns (byAttempt: map<string, Conversation>)
    ensures forall id :: Lookup(byAttempt, id) == Linked(conversations, id)
  {
    byAttempt := map[];
    for k := 0 to |conversations|
      invariant forall id :: Lookup(byAttempt, id) == Linked(conversations[..k], id)
    {
      var c := conversations[k];
      assert conversations[..k + 1][..k] == conversations[..k];
      if c.attemptId.Some? {
        byAttempt := byAttempt[c.attemptId.value := c];
      }
    }
    assert conversations[..|conversations|] == conversations;
  }

  method AttemptMessages(conversations: seq<Conversation>, attempts: seq<Attempt>, byAttempt: map<string, Conversation>)
    returns (messages: seq<Message>, seen: set<string>)
    requires forall id :: Lookup(byAttempt, id) == Linked(conversations, id)
    ensures messages == FromAttempts(conversations, attempts) && seen == SeenIds(conversations, attempts)
  {
    messages, seen := [], {};
    for k := 0 to |attempts|
      invariant messages == FromAttempts(conversations, attempts[..k])
      invariant seen == SeenIds(conversations, attempts[..k])
    {
      var a := attempts[k];
      assert attempts[..k + 1][..k] == attempts[..k];
      assert Lookup(byAttempt, a.id) == Linked(conversations, a.id);
      if a.id in byAttempt {
        seen := seen + {byAttempt[a.id].id};
      }
      if a.id in byAttempt && byAttempt[a.id].transcript != [] {
        messages := messages + Turns(byAttempt[a.id], a.channel);
      } else {
        messages := messages + AttemptRow(a);
      }
    }
    assert attempts[..|attempts|] == attempts;
  }

  method UnseenMessages(conversations: seq<Conversation>, seen: set<string>) returns (messages: seq<Message>)
    ensures messages == FromUnseen(conversations, seen)
  {
    messages := [];
    for k := 0 to |conversations|
      invariant messages == FromUnseen(conversations[..k], seen)
    {
      assert conversations[..k + 1][..k] == conversations[..k];
      if conversations[k].id !in seen {
        messages := messages + Turns(conversations[k], conversations[k].channel);
      }
    }
    assert conversations[..|conversations|] == conversations;
  }

  method NoteMessages(notes: seq<Note>) returns (messages: seq<Message>)
    ensures messages == FromNotes(notes)
  {
    messages := [];
    for k := 0 to |notes|
      invariant messages == FromNotes(notes[..k])
    {
      assert notes[..k + 1][..k] == notes[..k];
      messages := messages + NoteMessage(notes[k]);
    }
    assert notes[..|notes|] == notes;
  }

  method BuildLeadThread(input: Input) returns (thread: seq<Message>)
    ensures thread == ThreadOf(input)
  {
    var byAttempt := LinkConversations(input.conversations);
    var placed, seen := AttemptMessages(input.conversations, input.attempts, byAttempt);
    var unseen := UnseenMessages(input.conversations, seen);
    var notes := NoteMessages(input.notes);
    thread := SortBy(Opening(input.intake) + placed + unseen + notes, ByTime());
  }

  // ----- what the thread must show, told from the conversations' side

  // The attempt under whose channel a conversation is shown.
  function Claimer(conversations: seq<Conversation>, attempts: seq<Attempt>, c: Conversation): Option<Attempt> {
    if attempts == [] then None
    else
      var last := attempts[|attempts| - 1];
      if Linked(conversations, last.id) == Some(c) then Some(last) else Claimer(conversations, attempts[..|attempts| - 1], c)
  }

  function ShownOn(conversations: seq<Conversation>, attempts: seq<Attempt>, c: Conversation): Channel {
    var a := Claimer(conversations, attempts, c);
    if a.Some? then a.value.channel else c.channel
  }

  // Every turn of every conversation, conversation by conversation.
  function AllTurns(all: seq<Conversation>, attempts: seq<Attempt>, conversations: seq<Conversation>): seq<Message> {
    if conversations == [] then []
    else
      var last := conversations[|conversations| - 1];
      AllTurns(all, attempts, conversations[..|conversations| - 1]) + Turns(last, ShownOn(all, attempts, last))
  }

  // A row for each attempt without a transcript.
  function BareAttempts(conversations: seq<Conversation>, attempts: seq<Attempt>): seq<Message> {
    if attempts == [] then []
    else
      var last := attempts[|attempts| - 1];
      BareAttempts(conversations, attempts[..|attempts| - 1]) + if HasTurns(conversations, last) then [] else AttemptRow(last)
  }

  ghost predicate UniqueAttempts(attempts: seq<Attempt>) {
    forall i, j :: 0 <= i < j < |attempts| ==> attempts[i].id != attempts[j].id
  }

  ghost predicate UniqueConversations(conversations: seq<Conversation>) {
    forall i, j :: 0 <= i < j < |conversations| ==> conversations[i].id != conversations[j].id
  }

  lemma {:induction false} LinkedIs(conversations: seq<Conversation>, attempt: string)
    ensures Linked(conversations, attempt).Some? ==>
      Linked(conversations, attempt).value in conversations && Linked(conversations, attempt).value.attemptId == Some(attempt)
  {
    if conversations != [] {
      LinkedIs(conversations[..|conversations| - 1], attempt);
    }
  }

  lemma {:induction false} SeenIsClaimed(all: seq<Conversation>, attempts: seq<Attempt>, c: Conversation)
    requires UniqueConversations(all) && c in all
    ensures c.id in SeenIds(all, attempts) <==> Claimer(all, attempts, c).Some?
  {
    if attempts != [] {
      SeenIsClaimed(all, attempts[..|attempts| - 1], c);
      LinkedIs(all, attempts[|attempts| - 1].id);
    }
  }

  lemma {:induction false} ClaimerIs(all: seq<Conversation>, attempts: seq<Attempt>, c: Conversation)
    ensures Claimer(all, attempts, c).Some? ==>
      Claimer(all, attempts, c).value in attempts && Linked(all, Claimer(all, attempts, c).value.id) == Some(c)
  {
    if attempts != [] {
      ClaimerIs(all, attempts[..|attempts| - 1], c);
    }
  }

  // The turns shown under an attempt.
  function Claimed(all: seq<Conversation>, attempts: seq<Attempt>, conversations: seq<Conversation>): seq<Message> {
    if conversations == [] then []
    else
      var last := conversations[|conversations| - 1];
      Claimed(all, attempts, conversations[..|conversations| - 1])
      + if Claimer(all, attempts, last).Some? then Turns(last, ShownOn(all, attempts, last)) else []
  }

  lemma {:induction false} TurnsSplit(all: seq<Conversation>, attempts: seq<Attempt>, conversations: seq<Conversation>)
    requires UniqueConversations(all) && forall c :: c in conversations ==> c in all
    ensures multiset(AllTurns(all, attempts, conversations))
            == multiset(Claimed(all, attempts, conversations)) + multiset(FromUnseen(conversations, SeenIds(all, attempts)))
  {
    if conversations != [] {
      TurnsSplit(all, attempts, conversations[..|conversations| - 1]);
      SeenIsClaimed(all, attempts, conversations[|conversations| - 1]);
    }
  }

  lemma {:induction false} NoneClaimed(all: seq<Conversation>, conversations: seq<Conversation>)
    ensures Claimed(all, [], conversations) == []
  {
    if conversations != [] {
      NoneClaimed(all, conversations[..|conversations| - 1]);
    }
  }

  lemma NewClaim(all: seq<Conversation>, attempts: seq<Attempt>, a: Attempt, c: Conversation)
    requires forall x :: x in attempts ==> x.id != a.id
    ensures Claimer(all, attempts + [a], c) == if Linked(all, a.id) == Some(c) then Some(a) else Claimer(all, attempts, c)
    ensures Linked(all, a.id) == Some(c) ==> Claimer(all, attempts, c) == None
  {
    assert (attempts + [a])[..|attempts|] == attempts;
    ClaimerIs(all, attempts, c);
    LinkedIs(all, a.id);
    if Claimer(all, attempts, c).Some? {
      LinkedIs(all, Claimer(all, attempts, c).value.id);
    }
  }

  lemma LastClaim(all: seq<Conversation>, attempts: seq<Attempt>, front: seq<Conversation>, last: Conversation)
    ensures Claimed(all, attempts, front + [last]) == Claimed(all, attempts, front)
            + if Claimer(all, attempts, last).Some? then Turns(last, ShownOn(all, attempts, last)) else []
  {
    assert (front + [last])[..|front|] == front;
  }

  lemma Reorder(a: multiset<Message>, b: multiset<Message>, c: multiset<Message>)
    ensures a + b + c == a + c + b
  {
  }

  // One more attempt claims the conversation linked to it and changes nothing else.
  lemma {:induction false} OneMoreClaim(all: seq<Conversation>, attempts: seq<Attempt>, a: Attempt, conversations: seq<Conversation>)
    requires UniqueConversations(conversations) && forall x :: x in attempts ==> x.id != a.id
    ensures var c := Linked(all, a.id);
      multiset(Claimed(all, attempts + [a], conversations))
      == multiset(Claimed(all, attempts, conversations))
         + if c.Some? && c.value in conversations then multiset(Turns(c.value, a.channel)) else multiset{}
  {
    if conversations != [] {
      var front, last := conversations[..|conversations| - 1], conversations[|conversations| - 1];
      OneMoreClaim(all, attempts, a, front);
      NewClaim(all, attempts, a, last);
      assert conversations == front + [last];
      LastClaim(all, attempts, front, last);
      LastClaim(all, attempts + [a], front, last);
      var c := Linked(all, a.id);
      if c == Some(last) {
        assert last !in front;
        assert ShownOn(all, attempts + [a], last) == a.channel;
      } else {
        assert ShownOn(all, attempts + [a], last) == ShownOn(all, attempts, last);
        var piece := if Claimer(all, attempts, last).Some? then Turns(last, ShownOn(all, attempts, last)) else [];
        var extra := if c.Some? && c.value in conversations then multiset(Turns(c.value, a.channel)) else multiset{};
        Reorder(multiset(Claimed(all, attempts, front)), extra, multiset(piece));
      }
    }
  }

  lemma ShownOnce(all: seq<Conversation>, front: seq<Attempt>, last: Attempt)
    requires UniqueConversations(all) && forall x :: x in front ==> x.id != last.id
    ensures multiset(Claimed(all, front + [last], all)) + multiset(if HasTurns(all, last) then [] else AttemptRow(last))
            == multiset(Claimed(all, front, all)) + multiset(FromAttempt(all, last))
  {
    OneMoreClaim(all, front, last, all);
    LinkedIs(all, last.id);
    var c := Linked(all, last.id);
    assert c.Some? && c.value.transcript == [] ==> Turns(c.value, last.channel) == [];
  }

  lemma Exchange(shown: multiset<Message>, claimed: multiset<Message>, bare: multiset<Message>, one: multiset<Message>,
                 claimed': multiset<Message>, row: multiset<Message>)
    requires shown == claimed + bare && claimed' + row == claimed + one
    ensures shown + one == claimed' + (bare + row)
  {
    forall m | true ensures (shown + one)[m] == (claimed' + (bare + row))[m] {
      assert (claimed' + row)[m] == (claimed + one)[m];
    }
  }

  lemma LastAttempt(all: seq<Conversation>, front: seq<Attempt>, last: Attempt)
    ensures FromAttempts(all, front + [last]) == FromAttempts(all, front) + FromAttempt(all, last)
    ensures BareAttempts(all, front + [last]) == BareAttempts(all, front) + if HasTurns(all, last) then [] else AttemptRow(last)
  {
    assert (front + [last])[..|front|] == front;
  }

  lemma {:induction false} AttemptsShowClaims(all: seq<Conversation>, attempts: seq<Attempt>)
    requires UniqueAttempts(attempts) && UniqueConversations(all)
    ensures multiset(FromAttempts(all, attempts)) == multiset(Claimed(all, attempts, all)) + multiset(BareAttempts(all, attempts))
  {
    if attempts == [] {
      NoneClaimed(all, all);
    } else {
      var front, last := attempts[..|attempts| - 1], attempts[|attempts| - 1];
      assert attempts == front + [last];
      AttemptsShowClaims(all, front);
      OneMoreShown(all, front, last);
    }
  }

  lemma OneMoreShown(all: seq<Conversation>, front: seq<Attempt>, last: Attempt)
    requires UniqueConversations(all) && forall x :: x in front ==> x.id != last.id
    requires multiset(FromAttempts(all, front)) == multiset(Claimed(all, front, all)) + multiset(BareAttempts(all, front))
    ensures multiset(FromAttempts(all, front + [last]))
            == multiset(Claimed(all, front + [last], all)) + multiset(BareAttempts(all, front + [last]))
  {
    var row := if HasTurns(all, last) then [] else AttemptRow(last);
    ShownOnce(all, front, last);
    LastAttempt(all, front, last);
    Exchange(multiset(FromAttempts(all, front)), multiset(Claimed(all, front, all)), multiset(BareAttempts(all, front)),
             multiset(FromAttempt(all, last)), multiset(Claimed(all, front + [last], all)), multiset(row));
  }

  // The thread is in order of time, and it is exactly the intake, every turn of every transcript once,
  // a row for each attempt whose (last) linked conversation has no turns, and the conversational notes.
  lemma ThreadIsExact(input: Input)
    requires UniqueAttempts(input.attempts) && UniqueConversations(input.conversations)
    ensures SortedBy(ThreadOf(input), ByTime())
    ensures multiset(ThreadOf(input))
            == multiset(Opening(input.intake))
               + multiset(AllTurns(input.conversations, input.attempts, input.conversations))
               + multiset(BareAttempts(input.conversations, input.attempts))
               + multiset(FromNotes(input.notes))
  {
    SortSorted(Gathered(input), ByTime());
    AttemptsShowClaims(input.conversations, input.attempts);
    TurnsSplit(input.conversations, input.attempts, input.conversations);
  }

  // In order of time; and what happened at the same moment stays in the order it was gathered in.
  lemma ThreadIsInOrder(input: Input, t: int)
    ensures forall i, j :: 0 <= i < j < |ThreadOf(input)| ==> ThreadOf(input)[i].at <= ThreadOf(input)[j].at
    ensures WithKey(ThreadOf(input), ByTime(), t) == WithKey(Gathered(input), ByTime(), t)
  {
    var thread := ThreadOf(input);
    SortSorted(Gathered(input), ByTime());
    SortStable(Gathered(input), ByTime(), t);
    forall i, j | 0 <= i < j < |thread| ensures thread[i].at <= thread[j].at {
      assert ByTime()(thread[i]) <= ByTime()(thread[j]);
    }
  }

  lemma {:induction false} TurnsOf(all: seq<Conversation>, attempts: seq<Attempt>, conversations: seq<Conversation>, id: string, k: nat, n: nat)
    requires UniqueConversations(conversations) && n < |conversations| && conversations[n].id == id
    ensures Occurrences(AllTurns(all, attempts, conversations), OfTurn(id, k)) == if k < |conversations[n].transcript| then 1 else 0
  {
    var front, last := conversations[..|conversations| - 1], conversations[|conversations| - 1];
    var turns := Turns(last, ShownOn(all, attempts, last));
    OccurrencesAppend(AllTurns(all, attempts, front), turns, OfTurn(id, k));
    OccurrencesInTurns(last, ShownOn(all, attempts, last), |last.transcript|, OfTurn(id, k));
    assert turns[..|last.transcript|] == turns;
    if n < |front| {
      TurnsOf(all, attempts, front, id, k, n);
    } else {
      NoTurnsOf(all, attempts, front, id, k);
    }
  }

  lemma {:induction false} NoTurnsOf(all: seq<Conversation>, attempts: seq<Attempt>, conversations: seq<Conversation>, id: string, k: nat)
    requires forall i :: 0 <= i < |conversations| ==> conversations[i].id != id
    ensures Occurrences(AllTurns(all, attempts, conversations), OfTurn(id, k)) == 0
  {
    if conversations != [] {
      var front, last := conversations[..|conversations| - 1], conversations[|conversations| - 1];
      var turns := Turns(last, ShownOn(all, attempts, last));
      NoTurnsOf(all, attempts, front, id, k);
      OccurrencesAppend(AllTurns(all, attempts, front), turns, OfTurn(id, k));
      OccurrencesInTurns(last, ShownOn(all, attempts, last), |last.transcript|, OfTurn(id, k));
      assert turns[..|last.transcript|] == turns;
    }
  }

  function Occurrences(messages: seq<Message>, origin: Origin): nat {
    if messages == [] then 0
    else Occurrences(messages[..|messages| - 1], origin) + if messages[|messages| - 1].origin == origin then 1 else 0
  }

  lemma {:induction false} OccurrencesAppend(a: seq<Message>, b: seq<Message>, origin: Origin)
    ensures Occurrences(a + b, origin) == Occurrences(a, origin) + Occurrences(b, origin)
    decreases |b|
  {
    if b == [] {
      assert a + b == a;
    } else {
      assert (a + b)[..|a + b| - 1] == a + b[..|b| - 1];
      OccurrencesAppend(a, b[..|b| - 1], origin);
    }
  }

  lemma {:induction false} OccurrencesInTurns(c: Conversation, channel: Channel, n: nat, origin: Origin)
    requires n <= |c.transcript|
    ensures Occurrences(Turns(c, channel)[..n], origin)
            == if origin.OfTurn? && origin.conversation == c.id && origin.place < n then 1 else 0
  {
    if n > 0 {
      assert Turns(c, channel)[..n][..n - 1] == Turns(c, channel)[..n - 1];
      OccurrencesInTurns(c, channel, n - 1, origin);
    }
  }

  lemma OneTaken(t: seq<Message>, j: nat, origin: Origin)
    requires j < |t|
    ensures multiset(t) == multiset(t[..j] + t[j + 1..]) + multiset{t[j]}
    ensures Occurrences(t, origin) == Occurrences(t[..j] + t[j + 1..], origin) + if t[j].origin == origin then 1 else 0
  {
    var before, after := t[..j], t[j + 1..];
    assert t == before + [t[j]] + after;
    OccurrencesAppend(before, after, origin);
    OccurrencesAppend(before + [t[j]], after, origin);
    OccurrencesAppend(before, [t[j]], origin);
    OccurrencesOne(t[j], origin);
  }

  lemma {:induction false} OccurrencesSame(s: seq<Message>, t: seq<Message>, origin: Origin)
    requires multiset(s) == multiset(t)
    ensures Occurrences(s, origin) == Occurrences(t, origin)
    decreases |s|
  {
    if s == [] {
      assert |multiset(t)| == 0;
    } else {
      var n := |s| - 1;
      assert s[n] in multiset(t);
      var j :| 0 <= j < |t| && t[j] == s[n];
      OneTaken(s, n, origin);
      OneTaken(t, j, origin);
      var s', t' := s[..n] + s[n + 1..], t[..j] + t[j + 1..];
      assert multiset(s') == multiset(s) - multiset{s[n]};
      assert multiset(t') == multiset(t) - multiset{s[n]};
      OccurrencesSame(s', t', origin);
    }
  }

  lemma OccurrencesOne(m: Message, origin: Origin)
    ensures Occurrences([m], origin) == if m.origin == origin then 1 else 0
  {
    assert [m][..0] == [];
  }

  lemma {:induction false} OccursNowhere(messages: seq<Message>, origin: Origin)
    requires forall m :: m in messages ==> m.origin != origin
    ensures Occurrences(messages, origin) == 0
  {
    if messages != [] {
      OccursNowhere(messages[..|messages| - 1], origin);
    }
  }

  lemma {:induction false} RowsAreNoTurns(all: seq<Conversation>, attempts: seq<Attempt>)
    ensures forall m :: m in BareAttempts(all, attempts) ==> m.origin.OfAttempt?
  {
    if attempts != [] {
      RowsAreNoTurns(all, attempts[..|attempts| - 1]);
    }
  }

  lemma {:induction false} NotesAreNoTurns(notes: seq<Note>)
    ensures forall m :: m in FromNotes(notes) ==> m.origin.OfNote?
  {
    if notes != [] {
      NotesAreNoTurns(notes[..|notes| - 1]);
    }
  }

  lemma OnlyTurnsHaveTurns(input: Input, turns: seq<Message>, origin: Origin)
    requires origin.OfTurn?
    ensures Occurrences(Opening(input.intake) + turns + BareAttempts(input.conversations, input.attempts) + FromNotes(input.notes), origin)
            == Occurrences(turns, origin)
  {
    var opening, rows, notes := Opening(input.intake), BareAttempts(input.conversations, input.attempts), FromNotes(input.notes);
    OccurrencesAppend(opening + turns + rows, notes, origin);
    OccurrencesAppend(opening + turns, rows, origin);
    OccurrencesAppend(opening, turns, origin);
    RowsAreNoTurns(input.conversations, input.attempts);
    NotesAreNoTurns(input.notes);
    OccursNowhere(opening, origin);
    OccursNowhere(rows, origin);
    OccursNowhere(notes, origin);
  }

  // Every turn of every call is in the thread exactly once, and there are no others.
  lemma EachTurnOnce(input: Input, n: nat, k: nat)
    requires UniqueAttempts(input.attempts) && UniqueConversations(input.conversations) && n < |input.conversations|
    ensures Occurrences(ThreadOf(input), OfTurn(input.conversations[n].id, k))
            == if k < |input.conversations[n].transcript| then 1 else 0
  {
    var origin := OfTurn(input.conversations[n].id, k);
    var turns := AllTurns(input.conversations, input.attempts, input.conversations);
    var pieces := Opening(input.intake) + turns + BareAttempts(input.conversations, input.attempts) + FromNotes(input.notes);
    ThreadIsExact(input);
    assert multiset(pieces) == multiset(ThreadOf(input));
    OccurrencesSame(pieces, ThreadOf(input), origin);
    OnlyTurnsHaveTurns(input, turns, origin);
    TurnsOf(input.conversations, input.attempts, input.conversations, origin.conversation, k, n);
  }

  // ----- what each message says, and which attempts and notes have one

  // The last conversation linked to the attempt has turns.
  ghost predicate HasTranscript(conversations: seq<Conversation>, attempt: string) {
    exists n: nat :: n < |conversations| && IsLastOf(conversations, attempt, n) && conversations[n].transcript != []
  }

  ghost predicate IsLastOf(conversations: seq<Conversation>, attempt: string, n: nat)
    requires n < |conversations|
  {
    conversations[n].attemptId == Some(attempt) && forall m :: n < m < |conversations| ==> conversations[m].attemptId != Some(attempt)
  }

  lemma {:induction false} LinkedExactly(conversations: seq<Conversation>, attempt: string)
    ensures match Linked(conversations, attempt)
            case None => forall n :: 0 <= n < |conversations| ==> conversations[n].attemptId != Some(attempt)
            case Some(c) => exists n: nat :: n < |conversations| && IsLastOf(conversations, attempt, n) && conversations[n] == c
  {
    if conversations != [] {
      var front, last := conversations[..|conversations| - 1], |conversations| - 1;
      LinkedExactly(front, attempt);
      if conversations[last].attemptId == Some(attempt) {
        assert IsLastOf(conversations, attempt, last);
      } else if Linked(front, attempt).Some? {
        var n: nat :| n < |front| && IsLastOf(front, attempt, n) && front[n] == Linked(front, attempt).value;
        assert IsLastOf(conversations, attempt, n);
      }
    }
  }

  lemma HasTurnsExactly(conversations: seq<Conversation>, a: Attempt)
    ensures HasTurns(conversations, a) <==> HasTranscript(conversations, a.id)
  {
    LinkedExactly(conversations, a.id);
  }

  // This attempt is in the list and c is the last conversation linked to it.
  ghost predicate IsCallOf(input: Input, a: Attempt, c: Conversation) {
    a in input.attempts && exists n: nat :: n < |input.conversations| && IsLastOf(input.conversations, a.id, n) && input.conversations[n] == c
  }

  // A call is shown under the channel of its attempt, if it has one, else under its own.
  lemma ShownOnExactly(input: Input, c: Conversation)
    requires UniqueAttempts(input.attempts)
    ensures var channel := ShownOn(input.conversations, input.attempts, c);
      && (forall a :: IsCallOf(input, a, c) ==> channel == a.channel)
      && ((forall a :: !IsCallOf(input, a, c)) ==> channel == c.channel)
  {
    var claimer := Claimer(input.conversations, input.attempts, c);
    ClaimerIs(input.conversations, input.attempts, c);
    if claimer.Some? {
      LinkedExactly(input.conversations, claimer.value.id);
      assert IsCallOf(input, claimer.value, c);
    }
    forall a | IsCallOf(input, a, c) ensures claimer == Some(a) {
      var n: nat :| n < |input.conversations| && IsLastOf(input.conversations, a.id, n) && input.conversations[n] == c;
      LastIsLinked(input.conversations, a.id, n);
      ClaimerFound(input.conversations, input.attempts, a, c);
    }
  }

  lemma LastIsLinked(conversations: seq<Conversation>, attempt: string, n: nat)
    requires n < |conversations| && IsLastOf(conversations, attempt, n)
    ensures Linked(conversations, attempt) == Some(conversations[n])
  {
    LinkedExactly(conversations, attempt);
  }

  lemma {:induction false} ClaimerFound(all: seq<Conversation>, attempts: seq<Attempt>, a: Attempt, c: Conversation)
    requires UniqueAttempts(attempts) && a in attempts && Linked(all, a.id) == Some(c)
    ensures Claimer(all, attempts, c) == Some(a)
  {
    var front, last := attempts[..|attempts| - 1], attempts[|attempts| - 1];
    LinkedIs(all, last.id);
    LinkedIs(all, a.id);
    if a != last {
      ClaimerFound(all, front, a, c);
    }
  }

  // It stands for this turn, attempt, note or form: its time, its words, its channel, and who spoke.
  ghost predicate IsTurnOf(input: Input, m: Message, c: Conversation, k: nat) {
    && (forall a :: IsCallOf(input, a, c) ==> m.channel == a.channel)
    && ((forall a :: !IsCallOf(input, a, c)) ==> m.channel == c.channel)
    && k < |c.transcript| && m.origin == OfTurn(c.id, k) && m.at == c.transcript[k].at && m.text == c.transcript[k].text
    && (c.transcript[k].byBorrower ==> m.role == BORROWER) && (!c.transcript[k].byBorrower ==> m.role == AGENT)
  }

  ghost predicate IsAttempt(m: Message, a: Attempt) {
    && m.origin == OfAttempt(a.id) && m.at == a.at && m.channel == a.channel
    && (m.role == BORROWER <==> a.inbound)
    && (m.role == AGENT <==> !a.inbound && a.aiGenerated)
    && (m.role == OFFICER <==> !a.inbound && !a.aiGenerated && a.logged)
    && (a.body != "" ==> m.text == a.body)
    && (a.body == "" && a.channel == VOICE ==> m.text == "Call placed.")
    && (a.body == "" && a.channel != VOICE ==> m.text == "Outreach blocked before sending.")
  }

  ghost predicate IsNote(m: Message, n: Note) {
    && m.origin == OfNote(n.id) && m.at == n.at && m.text == n.body
    && (if n.channel.Some? then n.channel == Some(m.channel) else m.channel == n.authorChannel)
    && (if n.role.Some? then n.role == Some(m.role) else if n.authorId == "ai-agent" then m.role == AGENT else m.role == BORROWER)
  }

  ghost predicate IsIntake(m: Message, form: Form) {
    m.origin == Intake && m.at == form.at && m.text == form.text && m.channel == PORTAL && m.role == BORROWER
  }

  // A message of the thread says what its source says.
  ghost predicate IsTrue(input: Input, m: Message) {
    match m.origin
    case Intake => input.intake.Some? && IsIntake(m, input.intake.value)
    case OfTurn(_, k) => exists c :: c in input.conversations && IsTurnOf(input, m, c, k)
    case OfAttempt(_) => exists a :: a in input.attempts && IsAttempt(m, a)
    case OfNote(_) => exists n :: n in input.notes && IsNote(m, n)
  }

  lemma {:induction false} TurnsAreTrue(input: Input, conversations: seq<Conversation>)
    requires UniqueAttempts(input.attempts) && forall c :: c in conversations ==> c in input.conversations
    ensures forall m :: m in AllTurns(input.conversations, input.attempts, conversations) ==> IsTrue(input, m)
  {
    if conversations != [] {
      var last := conversations[|conversations| - 1];
      TurnsAreTrue(input, conversations[..|conversations| - 1]);
      ShownOnExactly(input, last);
      forall m | m in Turns(last, ShownOn(input.conversations, input.attempts, last)) ensures IsTrue(input, m) {
        assert IsTurnOf(input, m, last, m.origin.place);
      }
    }
  }

  lemma {:induction false} RowsAreTrue(input: Input, all: seq<Conversation>, attempts: seq<Attempt>)
    requires forall a :: a in attempts ==> a in input.attempts
    ensures forall m :: m in BareAttempts(all, attempts) ==> IsTrue(input, m)
  {
    if attempts != [] {
      var last := attempts[|attempts| - 1];
      RowsAreTrue(input, all, attempts[..|attempts| - 1]);
      forall m | m in AttemptRow(last) ensures IsTrue(input, m) {
        assert IsAttempt(m, last);
      }
    }
  }

  lemma {:induction false} NotesAreTrue(input: Input, notes: seq<Note>)
    requires forall n :: n in notes ==> n in input.notes
    ensures forall m :: m in FromNotes(notes) ==> IsTrue(input, m)
  {
    if notes != [] {
      var last := notes[|notes| - 1];
      NotesAreTrue(input, notes[..|notes| - 1]);
      forall m | m in NoteMessage(last) ensures IsTrue(input, m) {
        assert IsNote(m, last);
      }
    }
  }

  lemma ShownIsAPiece(input: Input, m: Message)
    requires UniqueAttempts(input.attempts) && UniqueConversations(input.conversations) && m in ThreadOf(input)
    ensures || m in Opening(input.intake)
            || m in AllTurns(input.conversations, input.attempts, input.conversations)
            || m in BareAttempts(input.conversations, input.attempts)
            || m in FromNotes(input.notes)
  {
    ThreadIsExact(input);
    assert m in multiset(ThreadOf(input));
  }

  // Whatever is shown is true to its source.
  lemma EveryMessageIsTrue(input: Input)
    requires UniqueAttempts(input.attempts) && UniqueConversations(input.conversations)
    ensures forall m :: m in ThreadOf(input) ==> IsTrue(input, m)
  {
    TurnsAreTrue(input, input.conversations);
    RowsAreTrue(input, input.conversations, input.attempts);
    NotesAreTrue(input, input.notes);
    forall m | m in ThreadOf(input) ensures IsTrue(input, m) {
      ShownIsAPiece(input, m);
    }
  }

  ghost predicate UniqueNotes(notes: seq<Note>) {
    forall i, j :: 0 <= i < j < |notes| ==> notes[i].id != notes[j].id
  }

  ghost predicate BelongsToConversation(n: Note) {
    n.channel.Some? || n.authorId == "borrower" || n.authorId == "ai-agent"
  }

  lemma OneNoteOccurs(n: Note, id: string)
    ensures Occurrences(NoteMessage(n), OfNote(id)) == if n.id == id && BelongsToConversation(n) then 1 else 0
  {
    if BelongsToConversation(n) {
      OccurrencesOne(NoteMessage(n)[0], OfNote(id));
    } else {
      OccursNowhere(NoteMessage(n), OfNote(id));
    }
  }

  lemma {:induction false} NoteOccurs(notes: seq<Note>, n: nat)
    requires UniqueNotes(notes) && n < |notes|
    ensures Occurrences(FromNotes(notes), OfNote(notes[n].id)) == if BelongsToConversation(notes[n]) then 1 else 0
  {
    var front, last := notes[..|notes| - 1], notes[|notes| - 1];
    OccurrencesAppend(FromNotes(front), NoteMessage(last), OfNote(notes[n].id));
    OneNoteOccurs(last, notes[n].id);
    if n < |front| {
      NoteOccurs(front, n);
    } else {
      NoNoteOf(front, last.id);
    }
  }

  lemma {:induction false} NoNoteOf(notes: seq<Note>, id: string)
    requires forall i :: 0 <= i < |notes| ==> notes[i].id != id
    ensures Occurrences(FromNotes(notes), OfNote(id)) == 0
  {
    if notes != [] {
      var front, last := notes[..|notes| - 1], notes[|notes| - 1];
      NoNoteOf(front, id);
      OccurrencesAppend(FromNotes(front), NoteMessage(last), OfNote(id));
      OccursNowhere(NoteMessage(last), OfNote(id));
    }
  }

  ghost predicate HasRow(conversations: seq<Conversation>, a: Attempt) {
    !HasTranscript(conversations, a.id) && (a.body != "" || a.channel == VOICE || a.blocked)
  }

  function Bare(all: seq<Conversation>, a: Attempt): seq<Message> {
    if HasTurns(all, a) then [] else AttemptRow(a)
  }

  lemma BareOccurs(all: seq<Conversation>, a: Attempt, id: string)
    ensures Occurrences(Bare(all, a), OfAttempt(id)) == if a.id == id && HasRow(all, a) then 1 else 0
  {
    HasTurnsExactly(all, a);
    if HasRow(all, a) {
      OccurrencesOne(AttemptRow(a)[0], OfAttempt(id));
    } else {
      OccursNowhere(Bare(all, a), OfAttempt(id));
    }
  }

  lemma {:induction false} AttemptOccurs(all: seq<Conversation>, attempts: seq<Attempt>, n: nat)
    requires UniqueAttempts(attempts) && n < |attempts|
    ensures Occurrences(BareAttempts(all, attempts), OfAttempt(attempts[n].id)) == if HasRow(all, attempts[n]) then 1 else 0
  {
    var front, last := attempts[..|attempts| - 1], attempts[|attempts| - 1];
    OccurrencesAppend(BareAttempts(all, front), Bare(all, last), OfAttempt(attempts[n].id));
    BareOccurs(all, last, attempts[n].id);
    if n < |front| {
      AttemptOccurs(all, front, n);
    } else {
      NoAttemptOf(all, front, last.id);
    }
  }

  lemma {:induction false} NoAttemptOf(all: seq<Conversation>, attempts: seq<Attempt>, id: string)
    requires forall i :: 0 <= i < |attempts| ==> attempts[i].id != id
    ensures Occurrences(BareAttempts(all, attempts), OfAttempt(id)) == 0
  {
    if attempts != [] {
      var front, last := attempts[..|attempts| - 1], attempts[|attempts| - 1];
      NoAttemptOf(all, front, id);
      OccurrencesAppend(BareAttempts(all, front), Bare(all, last), OfAttempt(id));
      OccursNowhere(Bare(all, last), OfAttempt(id));
    }
  }

  lemma {:induction false} AllTurnsAreTurns(all: seq<Conversation>, attempts: seq<Attempt>, conversations: seq<Conversation>)
    ensures forall m :: m in AllTurns(all, attempts, conversations) ==> m.origin.OfTurn?
  {
    if conversations != [] {
      AllTurnsAreTurns(all, attempts, conversations[..|conversations| - 1]);
    }
  }

  function Pieces(input: Input): seq<Message> {
    Opening(input.intake)
    + AllTurns(input.conversations, input.attempts, input.conversations)
    + BareAttempts(input.conversations, input.attempts)
    + FromNotes(input.notes)
  }

  lemma PiecesOccur(input: Input, origin: Origin)
    requires UniqueAttempts(input.attempts) && UniqueConversations(input.conversations)
    ensures Occurrences(ThreadOf(input), origin) == Occurrences(Pieces(input), origin)
  {
    ThreadIsExact(input);
    assert multiset(Pieces(input)) == multiset(ThreadOf(input));
    OccurrencesSame(Pieces(input), ThreadOf(input), origin);
  }

  lemma FourPieces(a: seq<Message>, b: seq<Message>, c: seq<Message>, d: seq<Message>, origin: Origin)
    ensures Occurrences(a + b + c + d, origin) == Occurrences(a, origin) + Occurrences(b, origin) + Occurrences(c, origin) + Occurrences(d, origin)
  {
    OccurrencesAppend(a + b + c, d, origin);
    OccurrencesAppend(a + b, c, origin);
    OccurrencesAppend(a, b, origin);
  }

  // How often an attempt or a note occurs, piece by piece.
  lemma OccursInPieces(input: Input, origin: Origin)
    requires UniqueAttempts(input.attempts) && UniqueConversations(input.conversations) && (origin.OfAttempt? || origin.OfNote?)
    ensures Occurrences(ThreadOf(input), origin)
            == Occurrences(BareAttempts(input.conversations, input.attempts), origin) + Occurrences(FromNotes(input.notes), origin)
  {
    var opening, turns := Opening(input.intake), AllTurns(input.conversations, input.attempts, input.conversations);
    PiecesOccur(input, origin);
    FourPieces(opening, turns, BareAttempts(input.conversations, input.attempts), FromNotes(input.notes), origin);
    AllTurnsAreTurns(input.conversations, input.attempts, input.conversations);
    OccursNowhere(opening, origin);
    OccursNowhere(turns, origin);
  }

  // A note is shown, once, exactly if it belongs to the conversation; an officer's private note never is.
  lemma NoteIsShownExactly(input: Input, n: nat)
    requires UniqueAttempts(input.attempts) && UniqueConversations(input.conversations) && UniqueNotes(input.notes) && n < |input.notes|
    ensures Occurrences(ThreadOf(input), OfNote(input.notes[n].id)) == if BelongsToConversation(input.notes[n]) then 1 else 0
  {
    var origin := OfNote(input.notes[n].id);
    OccursInPieces(input, origin);
    RowsAreNoTurns(input.conversations, input.attempts);
    OccursNowhere(BareAttempts(input.conversations, input.attempts), origin);
    NoteOccurs(input.notes, n);
  }

  // An attempt has a row of its own, once, exactly if the last conversation linked to it has no turns and
  // there is something to show.
  lemma AttemptIsShownExactly(input: Input, n: nat)
    requires UniqueAttempts(input.attempts) && UniqueConversations(input.conversations) && n < |input.attempts|
    ensures Occurrences(ThreadOf(input), OfAttempt(input.attempts[n].id)) == if HasRow(input.conversations, input.attempts[n]) then 1 else 0
  {
    var origin := OfAttempt(input.attempts[n].id);
    OccursInPieces(input, origin);
    NotesAreNoTurns(input.notes);
    OccursNowhere(FromNotes(input.notes), origin);
    AttemptOccurs(input.conversations, input.attempts, n);
  }

  // ----- the brief

  const BODY_LIMIT := 300

  // Array.prototype.slice with one argument.
  function SliceFrom<T>(s: seq<T>, start: int): seq<T> {
    if start < 0 then s[Max(|s| + start, 0)..] else s[Min(start, |s|)..]
  }

  function IntakeIn(thread: seq<Message>): Option<Message> {
    if thread == [] then None else if thread[0].origin == Intake then Some(thread[0]) else IntakeIn(thread[1..])
  }

  function WithoutIntake(thread: seq<Message>): (rest: seq<Message>)
    ensures |rest| <= |thread|
  {
    if thread == [] then []
    else (if thread[0].origin == Intake then [] else [thread[0]]) + WithoutIntake(thread[1..])
  }

  function Recent(thread: seq<Message>, maxMessages: int): seq<Message> {
    var intake := IntakeIn(thread);
    if intake.Some? then [intake.value] + SliceFrom(WithoutIntake(thread), -(maxMessages - 1))
    else SliceFrom(thread, -maxMessages)
  }

  function Who(role: Role): string {
    match role
    case BORROWER => "Borrower"
    case OFFICER => "Loan officer"
    case _ => "Us"
  }

  function Via(channel: Channel): string {
    match channel
    case VOICE => "voice"
    case SMS => "sms"
    case EMAIL => "email"
    case PORTAL => "status page"
  }

  function Line(m: Message): string {
    var body := if |m.text| > BODY_LIMIT then m.text[..BODY_LIMIT] + "\U{2026}" else m.text;
    "- [" + Via(m.channel) + "] " + Who(m.role) + ": " + body
  }

  // A line names the channel and who spoke, then the first 300 characters of what was said.
  lemma LineExactly(m: Message)
    ensures var via := if m.channel == VOICE then "voice" else if m.channel == SMS then "sms" else if m.channel == EMAIL then "email" else "status page";
            var who := if m.role == BORROWER then "Borrower" else if m.role == OFFICER then "Loan officer" else "Us";
            var head := "- [" + via + "] " + who + ": ";
      Line(m) == if |m.text| <= 300 then head + m.text else head + m.text[..300] + "\U{2026}"
  {
    if |m.text| > 300 {
      var head := "- [" + Via(m.channel) + "] " + Who(m.role) + ": ";
      assert head + (m.text[..300] + "\U{2026}") == head + m.text[..300] + "\U{2026}";
    }
  }

  function Lines(messages: seq<Message>): (lines: seq<string>)
    ensures |lines| == |messages|
  {
    seq(|messages|, i requires 0 <= i < |messages| => Line(messages[i]))
  }

  function Brief(thread: seq<Message>, maxMessages: int): seq<string> {
    if thread == [] then [] else Lines(Recent(thread, maxMessages))
  }

  // The intake is found wherever it is, and the rest is everything else.
  lemma {:induction false} IntakeIsFound(thread: seq<Message>)
    ensures IntakeIn(thread) == None <==> forall m :: m in thread ==> m.origin != Intake
    ensures IntakeIn(thread).Some? ==> IntakeIn(thread).value in thread && IntakeIn(thread).value.origin == Intake
    ensures forall m :: m in WithoutIntake(thread) <==> m in thread && m.origin != Intake
  {
    if thread != [] {
      assert thread == [thread[0]] + thread[1..];
      IntakeIsFound(thread[1..]);
    }
  }

  lemma {:induction false} NoIntake(thread: seq<Message>)
    ensures IntakeIn(thread) == None ==> WithoutIntake(thread) == thread
    ensures IntakeIn(thread).Some? ==> |WithoutIntake(thread)| < |thread|
  {
    if thread != [] {
      NoIntake(thread[1..]);
    }
  }

  function Newest<T>(s: seq<T>, n: nat): (r: seq<T>)
    ensures |r| == Min(|s|, n)
  {
    s[|s| - Min(|s|, n)..]
  }

  lemma NegativeSlice<T>(s: seq<T>, n: int)
    requires n > 0
    ensures SliceFrom(s, -n) == Newest(s, n)
  {
  }

  lemma RecentWithIntake(thread: seq<Message>, maxMessages: int)
    requires maxMessages >= 2 && IntakeIn(thread).Some?
    ensures Recent(thread, maxMessages) == [IntakeIn(thread).value] + Newest(WithoutIntake(thread), maxMessages - 1)
  {
    NegativeSlice(WithoutIntake(thread), maxMessages - 1);
  }

  lemma RecentWithoutIntake(thread: seq<Message>, maxMessages: int)
    requires maxMessages >= 2 && IntakeIn(thread) == None
    ensures Recent(thread, maxMessages) == Newest(WithoutIntake(thread), maxMessages)
  {
    NoIntake(thread);
    NegativeSlice(thread, maxMessages);
  }

  // From two messages on: the brief holds at most that many lines, opens with the intake if there is one,
  // and goes on with the newest others in their order - all of them, or exactly as many as fit.
  lemma BriefIsBounded(thread: seq<Message>, maxMessages: int)
    requires maxMessages >= 2
    ensures |Brief(thread, maxMessages)| <= maxMessages
    ensures match IntakeIn(thread)
            case Some(intake) => Recent(thread, maxMessages) == [intake] + Newest(WithoutIntake(thread), maxMessages - 1)
            case None => Recent(thread, maxMessages) == Newest(WithoutIntake(thread), maxMessages)
  {
    if IntakeIn(thread).Some? {
      RecentWithIntake(thread, maxMessages);
    } else {
      RecentWithoutIntake(thread, maxMessages);
    }
  }

  // Below two the bound fails: slice(-0) is the whole thread. Exactly when the number of lines is bounded.
  lemma BriefBoundExactly(thread: seq<Message>, maxMessages: int)
    requires thread != []
    ensures |Brief(thread, maxMessages)| <= maxMessages <==>
      || maxMessages >= 2
      || (maxMessages == 1 && (IntakeIn(thread) == None || WithoutIntake(thread) == []))
  {
    NoIntake(thread);
  }
}
