/** STOP and START replies and the choice of thread for an ordinary reply (inboundSms.ts). */
module OptOut {
  import opened Common
  import opened Sorting
  import opened JsonModel
  import opened LeadStates
  import FieldHistory
  import MergeAlgebra
  import PolicyGate
  import SaveProtocol
  import SnapshotMerge

  datatype Reason = OPT_OUT_STOP | DNC_LISTED | COMPLAINED | LITIGATION

  datatype Person = Person(leadId: string, phone: string, primary: bool)

  type States = map<string, LeadState>

  // The store as these handlers see it: reasons by number, lead states by id.
  datatype Store = Store(suppressions: map<string, Reason>, states: States)

  // Every lead whose primary contact uses this number.
  predicate Matches(people: seq<Person>, states: States, phone: string, id: string) {
    id in states && Person(id, phone, true) in people
  }

  function StateAfter(people: seq<Person>, states: States, phone: string, id: string): Option<LeadState> {
    if Matches(people, states, phone, id) && states[id] !in TERMINAL_STATES then Some(SUPPRESSED) else Lookup(states, id)
  }

  lemma NextPerson(seen: seq<Person>, p: Person, states: States, phone: string, id: string)
    ensures Matches(seen + [p], states, phone, id) <==>
            Matches(seen, states, phone, id) || (id in states && p == Person(id, phone, true))
  {
  }

  function Stopped(people: seq<Person>, s: Store, phone: string): Store {
    Store(if phone in s.suppressions then s.suppressions else s.suppressions[phone := OPT_OUT_STOP],
          map id | id in s.states :: StateAfter(people, s.states, phone, id).value)
  }

  // Where saves go. Suppressions are durable records: a save to the database merges the copy onto the
  // row, which keeps an entry the copy no longer has, and the copy then takes the merged value.
  function Saved(backend: Backend, stored: map<string, Reason>, copy: map<string, Reason>): map<string, Reason> {
    if backend == Database then stored + copy else copy
  }

  // A START reply, from the reply to the end of the handler's save.
  function Restarted(backend: Backend, s: Store, phone: string): Store {
    if phone in s.suppressions && s.suppressions[phone] == OPT_OUT_STOP
    then s.(suppressions := Saved(backend, s.suppressions, s.suppressions - {phone})) else s
  }

  // The same for an administrator lifting an entry, whatever its reason.
  function Lifted(backend: Backend, s: Store, phone: string): Store {
    s.(suppressions := Saved(backend, s.suppressions, s.suppressions - {phone}))
  }

  // ----- that this is what the merge does

  const SUPPRESSIONS := "suppressions"
  const LEADS := "leads"
  const STATE_SUPPRESSED := Str("SUPPRESSED")

  function StateOf(id: string): FieldHistory.Place {
    FieldHistory.Place(LEADS, id, "state")
  }

  function NameOf(r: Reason): string {
    match r
    case OPT_OUT_STOP => "OPT_OUT_STOP"
    case DNC_LISTED => "DNC_LISTED"
    case COMPLAINED => "COMPLAINED"
    case LITIGATION => "LITIGATION"
  }

  function RecordOf(r: Reason): Json {
    Obj(map["reason" := Str(NameOf(r))])
  }

  function Entries(m: map<string, Reason>): map<string, Json> {
    map p | p in m :: RecordOf(m[p])
  }

  // s lists exactly these numbers.
  predicate Lists(s: SnapshotMerge.Snapshot, m: map<string, Reason>) {
    SUPPRESSIONS in s.collections && s.collections[SUPPRESSIONS].keyed == Entries(m)
  }

  // Whatever else two copies of the store hold, saving one onto a row that was its baseline leaves the
  // suppressions that Saved says.
  lemma SavedIsMerge(h: Host, base: SnapshotMerge.Snapshot, cur: SnapshotMerge.Snapshot, stored: map<string, Reason>, copy: map<string, Reason>)
    requires Lists(base, stored) && Lists(cur, copy)
    ensures Lists(SnapshotMerge.MergedSnapshot(h, Some(base), cur, base), Saved(Database, stored, copy))
  {
    var merged := SnapshotMerge.MergedSnapshot(h, Some(base), cur, base);
    MergeAlgebra.SnapshotAt(h, Some(base), cur, base);
    forall p ensures Lookup(merged.collections[SUPPRESSIONS].keyed, p) == Lookup(Entries(stored + copy), p) {
      assert SnapshotMerge.Record(merged, SUPPRESSIONS, p) == MergeAlgebra.MergedAt(h, Some(base), cur, base, SUPPRESSIONS, p);
      MergeAlgebra.CellOntoBase(h, SUPPRESSIONS, SnapshotMerge.Record(base, SUPPRESSIONS, p), SnapshotMerge.Record(cur, SUPPRESSIONS, p));
    }
    SameMap(merged.collections[SUPPRESSIONS].keyed, Entries(stored + copy));
  }

  // Onto any row, moved or not: an entry the copy has deleted is in the merge as it is in the row.
  lemma DeletedEntryReturns(h: Host, base: Option<SnapshotMerge.Snapshot>, cur: SnapshotMerge.Snapshot, row: SnapshotMerge.Snapshot, phone: string)
    requires SnapshotMerge.Record(cur, SUPPRESSIONS, phone) == None
    ensures SnapshotMerge.Record(SnapshotMerge.MergedSnapshot(h, base, cur, row), SUPPRESSIONS, phone)
            == SnapshotMerge.Record(row, SUPPRESSIONS, phone)
  {
    MergeAlgebra.SnapshotAt(h, base, cur, row);
    assert SnapshotMerge.Record(SnapshotMerge.MergedSnapshot(h, base, cur, row), SUPPRESSIONS, phone)
        == MergeAlgebra.MergedAt(h, base, cur, row, SUPPRESSIONS, phone);
    SuppressionsAreDurable();
  }

  lemma SuppressionsAreDurable()
    ensures SUPPRESSIONS !in SnapshotMerge.EPHEMERAL_DELETE_MAP_KEYS
  {
  }

  // So over every interleaving of every number of instances a number once stored as suppressed stays so.
  lemma NoInstanceEverLifts(h: Host, n: nat, steps: seq<SaveProtocol.Step>, r: nat, phone: string)
    requires r < |SaveProtocol.Run(h, SaveProtocol.Start(n), steps).history|
    requires SnapshotMerge.Record(SaveProtocol.Run(h, SaveProtocol.Start(n), steps).history[r].value, SUPPRESSIONS, phone).Some?
    ensures var row := SaveProtocol.Run(h, SaveProtocol.Start(n), steps).row;
            row.Some? && SnapshotMerge.Record(row.value.value, SUPPRESSIONS, phone).Some?
  {
    SaveProtocol.NothingDurableIsLost(h, n, steps, r, SUPPRESSIONS, phone);
  }

  // And its lead, once stored as suppressed, is stored so at every later moment of a run exactly if no
  // later save brings another state from a copy that did not see it: state is merged as a plain field.
  lemma SuppressedStaysExactly(h: Host, n: nat, steps: seq<SaveProtocol.Step>, first: nat, id: string)
    requires first < |SaveProtocol.Run(h, SaveProtocol.Start(n), steps).history|
    requires FieldHistory.Has(SaveProtocol.Run(h, SaveProtocol.Start(n), steps).history, StateOf(id), STATE_SUPPRESSED)(first)
    ensures var history := SaveProtocol.Run(h, SaveProtocol.Start(n), steps).history;
            var has, overwritten := FieldHistory.Has(history, StateOf(id), STATE_SUPPRESSED), FieldHistory.IsOverwritten(history, StateOf(id), STATE_SUPPRESSED);
      (forall r: nat :: first <= r <= |history| - 1 ==> has(r)) <==> (forall r: nat :: first < r <= |history| - 1 ==> !overwritten(r))
  {
    var history := SaveProtocol.Run(h, SaveProtocol.Start(n), steps).history;
    SaveProtocol.EveryRunIsLinear(h, n, steps);
    StateIsDurable(id);
    FieldHistory.FieldStaysExactly(h, history, first, |history| - 1, StateOf(id), STATE_SUPPRESSED);
  }

  lemma StateIsDurable(id: string)
    ensures FieldHistory.IsDurable(StateOf(id))
  {
  }

  // The gate asks about the entries of the number on the copy it works on.
  predicate IsListed(contact: PolicyGate.GateInput, copy: SnapshotMerge.Snapshot, phone: string) {
    SnapshotMerge.Record(copy, SUPPRESSIONS, phone).Some? ==> PolicyGate.Suppression(true, None, None) in contact.suppressions
  }

  // Whatever becomes of the lead's state, on every instance that loads a row from then on the gate denies
  // every contact with the number.
  lemma EveryLaterLoadDenies(h: Host, n: nat, before: seq<SaveProtocol.Step>, r: nat, phone: string, i: nat, contact: PolicyGate.GateInput)
    requires r < |SaveProtocol.Run(h, SaveProtocol.Start(n), before).history| && i < n
    requires SnapshotMerge.Record(SaveProtocol.Run(h, SaveProtocol.Start(n), before).history[r].value, SUPPRESSIONS, phone).Some?
    requires var w := SaveProtocol.Run(h, SaveProtocol.Start(n), before);
             var loaded := SaveProtocol.Run(h, w, [SaveProtocol.Fetch(i), SaveProtocol.Load(i, |w.instances[i].fetched|)]);
             loaded.instances[i].memory.Some? ==> IsListed(contact, loaded.instances[i].memory.value, phone)
    ensures PolicyGate.Evaluate(contact).DENY?
  {
    var w := SaveProtocol.Run(h, SaveProtocol.Start(n), before);
    NoInstanceEverLifts(h, n, before, r, phone);
    SaveProtocol.FetchThenLoad(h, w, i);
  }

  // ----- the handlers

  // stored is what the backend holds; between two handlers it is what the copy holds.
  class Desk {
    const backend: Backend
    const people: seq<Person>
    var suppressions: map<string, Reason>
    var stored: map<string, Reason>
    var states: States

    constructor (backend: Backend, people: seq<Person>, states: States)
      ensures this.backend == backend && this.people == people && this.states == states
      ensures suppressions == stored == map[]
    {
      this.backend := backend;
      this.people := people;
      this.states := states;
      suppressions, stored := map[], map[];
    }

    method Save()
      modifies this`suppressions, this`stored
      ensures suppressions == stored == Saved(backend, old(stored), old(suppressions))
    {
      if backend == Database {
        suppressions := stored + suppressions;
      }
      stored := suppressions;
    }

    function View(): Store
      reads this
    {
      Store(suppressions, states)
    }

    method HandleStop(phone: string)
      requires stored == suppressions
      modifies this
      ensures View() == Stopped(people, old(View()), phone) && stored == suppressions
    {
      if phone !in suppressions {
        suppressions := suppressions[phone := OPT_OUT_STOP];
      }
      ghost var before := states;
      for k := 0 to |people|
        invariant forall id :: Lookup(states, id) == StateAfter(people[..k], before, phone, id)
        invariant suppressions == Stopped(people, old(View()), phone).suppressions && stored == old(stored)
      {
        var p := people[k];
        ghost var was := states;
        if p.phone == phone && p.primary {
          assert Lookup(was, p.leadId) == StateAfter(people[..k], before, phone, p.leadId);
          if p.leadId in states && states[p.leadId] !in TERMINAL_STATES {
            states := states[p.leadId := SUPPRESSED];
          }
        }
        assert people[..k + 1] == people[..k] + [p];
        forall id ensures Lookup(states, id) == StateAfter(people[..k + 1], before, phone, id) {
          NextPerson(people[..k], p, before, phone, id);
          assert Lookup(was, id) == StateAfter(people[..k], before, phone, id);
        }
      }
      assert people[..|people|] == people;
      SameMap(states, Stopped(people, old(View()), phone).states);
      Save();
    }

    // Lifts the borrower's own opt-out and nothing else - in the copy; then saves.
    method HandleStart(phone: string)
      requires stored == suppressions
      modifies this
      ensures View() == Restarted(backend, old(View()), phone) && stored == suppressions
    {
      if phone in suppressions && suppressions[phone] == OPT_OUT_STOP {
        suppressions := suppressions - {phone};
      }
      Save();
    }
  }

  datatype Event =
    | StopFrom(phone: string)
    | StartFrom(phone: string)
    | LiftFrom(phone: string)
    | LeadEventOn(id: string, event: LeadEvent)

  // Who is on file and where saves go do not change.
  datatype Office = Office(backend: Backend, people: seq<Person>)

  function Next(o: Office, s: Store, e: Event): Store {
    match e
    case StopFrom(phone) => Stopped(o.people, s, phone)
    case StartFrom(phone) => Restarted(o.backend, s, phone)
    case LiftFrom(phone) => Lifted(o.backend, s, phone)
    case LeadEventOn(id, event) => if id in s.states then s.(states := s.states[id := After(s.states[id], event)]) else s
  }

  function Run(o: Office, s: Store, events: seq<Event>): Store
    decreases |events|
  {
    if events == [] then s else Run(o, Next(o, s, events[0]), events[1..])
  }

  lemma {:induction false} TerminalStays(o: Office, s: Store, events: seq<Event>, id: string)
    requires id in s.states && s.states[id] in TERMINAL_STATES
    ensures id in Run(o, s, events).states && Run(o, s, events).states[id] == s.states[id]
    decreases |events|
  {
    if events != [] {
      TerminalStays(o, Next(o, s, events[0]), events[1..], id);
    }
  }

  // After a STOP from a number, whatever happens next - START replies, lead events, officer takeovers -
  // every lead reached on that number stays closed, and the gate denies every contact with it: any
  // channel, any moment, manual or automated, under any override.
  lemma StopIsForever(o: Office, s: Store, phone: string, events: seq<Event>, id: string, contact: PolicyGate.GateInput)
    requires Matches(o.people, s.states, phone, id)
    requires var states := Run(o, Stopped(o.people, s, phone), events).states; id in states && contact.leadState == states[id]
    ensures contact.leadState in TERMINAL_STATES
    ensures PolicyGate.Evaluate(contact).DENY?
  {
    TerminalStays(o, Stopped(o.people, s, phone), events, id);
    PolicyGate.DenyIsUnconditional(contact, contact.overrides);
    assert contact.(overrides := contact.overrides) == contact;
  }

  // What takes a number off the list, exactly: with the local file a START reply to the borrower's own
  // opt-out or an administrator's lift; with the database nothing does.
  lemma LeavesTheListExactly(o: Office, s: Store, e: Event, phone: string)
    requires phone in s.suppressions
    ensures phone !in Next(o, s, e).suppressions <==>
      && o.backend == LocalFile
      && (e == LiftFrom(phone) || (e == StartFrom(phone) && s.suppressions[phone] == OPT_OUT_STOP))
    ensures phone in Next(o, s, e).suppressions ==> Next(o, s, e).suppressions[phone] == s.suppressions[phone]
  {
  }

  // So with the database START lifts nothing, over any run.
  lemma {:induction false} ListedForever(o: Office, s: Store, events: seq<Event>, phone: string)
    requires o.backend == Database && phone in s.suppressions
    ensures phone in Run(o, s, events).suppressions
    ensures Run(o, s, events).suppressions[phone] == s.suppressions[phone]
    decreases |events|
  {
    if events != [] {
      LeavesTheListExactly(o, s, events[0], phone);
      ListedForever(o, Next(o, s, events[0]), events[1..], phone);
    }
  }

  // With either backend no reply removes or overwrites a reason someone else recorded.
  lemma {:induction false} ForeignReasonsStay(o: Office, s: Store, events: seq<Event>, phone: string)
    requires phone in s.suppressions && s.suppressions[phone] != OPT_OUT_STOP
    requires forall n :: 0 <= n < |events| ==> events[n] != LiftFrom(phone)
    ensures phone in Run(o, s, events).suppressions
    ensures Run(o, s, events).suppressions[phone] == s.suppressions[phone]
    decreases |events|
  {
    if events != [] {
      LeavesTheListExactly(o, s, events[0], phone);
      ForeignReasonsStay(o, Next(o, s, events[0]), events[1..], phone);
    }
  }

  // What a STOP does: the number is listed, as the borrower's own opt-out unless an entry was there; a lead
  // is closed exactly if it was open and has this number as its primary contact's; and nothing else changes.
  lemma StopExactly(o: Office, s: Store, phone: string)
    ensures var t := Next(o, s, StopFrom(phone));
      && Lookup(t.suppressions, phone) == (if phone in s.suppressions then Lookup(s.suppressions, phone) else Some(OPT_OUT_STOP))
      && (forall other :: other != phone ==> Lookup(t.suppressions, other) == Lookup(s.suppressions, other))
      && (forall id :: id in t.states <==> id in s.states)
      && forall id :: id in s.states ==>
           if Person(id, phone, true) in o.people && s.states[id] != CLOSED_WON && s.states[id] != CLOSED_LOST
           then t.states[id] == SUPPRESSED else t.states[id] == s.states[id]
  {
  }

  // What a START does to the list: with the local file it takes the borrower's own opt-out off and nothing
  // else; with the database nothing. It never touches a lead.
  lemma StartExactly(o: Office, s: Store, phone: string)
    ensures var t := Next(o, s, StartFrom(phone));
      && t.states == s.states
      && (forall other :: other != phone ==> Lookup(t.suppressions, other) == Lookup(s.suppressions, other))
      && Lookup(t.suppressions, phone) ==
           if o.backend == LocalFile && Lookup(s.suppressions, phone) == Some(OPT_OUT_STOP) then None else Lookup(s.suppressions, phone)
  {
    if phone in s.suppressions {
      assert o.backend == Database ==> Saved(o.backend, s.suppressions, s.suppressions - {phone}) == s.suppressions;
    }
  }

  // An event on a lead moves that lead, if the transition is a valid one, and leaves the list alone.
  lemma LeadEventExactly(o: Office, s: Store, id: string, event: LeadEvent)
    ensures var t := Next(o, s, LeadEventOn(id, event));
      && t.suppressions == s.suppressions
      && (forall other :: other != id ==> Lookup(t.states, other) == Lookup(s.states, other))
      && Lookup(t.states, id) ==
           match Lookup(s.states, id)
           case None => None
           case Some(state) => if Transition(state, event).Some? then Transition(state, event) else Some(state)
  {
  }

  // ----- which inquiry an ordinary reply belongs to

  datatype Lead = Lead(id: string, state: LeadState, createdAt: int)
  datatype Sms = Sms(leadId: string, delivered: bool, at: int)

  function NewestFirst(): Sms -> int {
    (a: Sms) => -a.at
  }

  function ActiveFirst(): Lead -> int {
    (l: Lead) => if l.state in TERMINAL_STATES then 1 else 0
  }

  function YoungestFirst(): Lead -> int {
    (l: Lead) => -l.createdAt
  }

  function Relevant(leads: seq<Lead>, sent: seq<Sms>): seq<Sms> {
    if sent == [] then []
    else (if sent[0].delivered && exists l :: l in leads && l.id == sent[0].leadId then [sent[0]] else []) + Relevant(leads, sent[1..])
  }

  function WithId(leads: seq<Lead>, id: string): Option<Lead> {
    if leads == [] then None else if leads[0].id == id then Some(leads[0]) else WithId(leads[1..], id)
  }

  // Active before terminal, then youngest first: the comparator's two keys as two stable sorts.
  function SelectLead(leads: seq<Lead>, sent: seq<Sms>): Option<Lead> {
    if |leads| == 0 then None
    else if |leads| == 1 then Some(leads[0])
    else
      var texts := SortBy(Relevant(leads, sent), NewestFirst());
      if texts != [] then WithId(leads, texts[0].leadId)
      else Some(SortBy(SortBy(leads, YoungestFirst()), ActiveFirst())[0])
  }

  lemma {:induction false} RelevantIs(leads: seq<Lead>, sent: seq<Sms>)
    ensures forall a :: a in Relevant(leads, sent) <==> a in sent && a.delivered && exists l :: l in leads && l.id == a.leadId
  {
    if sent != [] {
      assert sent == [sent[0]] + sent[1..];
      RelevantIs(leads, sent[1..]);
    }
  }

  lemma {:induction false} WithIdIs(leads: seq<Lead>, id: string)
    requires exists l :: l in leads && l.id == id
    ensures WithId(leads, id).Some? && WithId(leads, id).value in leads && WithId(leads, id).value.id == id
  {
    if leads[0].id != id {
      var l :| l in leads && l.id == id;
      assert leads == [leads[0]] + leads[1..];
      assert l in leads[1..];
      WithIdIs(leads[1..], id);
    }
  }

  lemma {:induction false} FirstWithKey<T(!new)>(s: seq<T>, key: T -> int)
    requires SortedBy(s, key) && s != []
    ensures WithKey(s, key, key(s[0])) != [] && WithKey(s, key, key(s[0]))[0] == s[0]
  {
  }

  lemma {:induction false} WithKeySorted<T(!new)>(s: seq<T>, key: T -> int, v: int, other: T -> int)
    requires SortedBy(s, other)
    ensures SortedBy(WithKey(s, key, v), other)
    ensures forall x :: x in WithKey(s, key, v) <==> x in s && key(x) == v
  {
    if s != [] {
      assert s == [s[0]] + s[1..];
      assert forall i, j :: 0 <= i < j < |s[1..]| ==> other(s[1..][i]) <= other(s[1..][j]) by {
        forall i, j | 0 <= i < j < |s[1..]| ensures other(s[1..][i]) <= other(s[1..][j]) {
          assert s[1..][i] == s[i + 1] && s[1..][j] == s[j + 1];
        }
      }
      WithKeySorted(s[1..], key, v, other);
      var rest := WithKey(s[1..], key, v);
      forall x | x in rest ensures other(s[0]) <= other(x) {
        var i :| 0 <= i < |s[1..]| && s[1..][i] == x;
        assert s[i + 1] == x;
      }
    }
  }

  // A reply joins exactly one matching inquiry: the one whose delivered text is the most recent, and
  // with no such text the youngest one still active, or the youngest of all if none is.
  lemma ReplyJoinsOneThread(leads: seq<Lead>, sent: seq<Sms>)
    requires |leads| > 1
    ensures SelectLead(leads, sent).Some? && SelectLead(leads, sent).value in leads
    ensures var chosen := SelectLead(leads, sent).value;
      if Relevant(leads, sent) != [] then
        exists a :: a in Relevant(leads, sent) && a.leadId == chosen.id && forall b :: b in Relevant(leads, sent) ==> b.at <= a.at
      else
        forall l :: l in leads ==>
          || (chosen.state !in TERMINAL_STATES && l.state in TERMINAL_STATES)
          || ((chosen.state in TERMINAL_STATES <==> l.state in TERMINAL_STATES) && l.createdAt <= chosen.createdAt)
  {
    var relevant := Relevant(leads, sent);
    if relevant != [] {
      RelevantIs(leads, sent);
      FirstIsLeast(relevant, NewestFirst());
      var newest := SortBy(relevant, NewestFirst())[0];
      WithIdIs(leads, newest.leadId);
      forall b | b in relevant ensures b.at <= newest.at {
        assert NewestFirst()(newest) <= NewestFirst()(b);
      }
    } else {
      ChosenWithoutTexts(leads);
    }
  }

  lemma ChosenWithoutTexts(leads: seq<Lead>)
    requires leads != []
    ensures var chosen := SortBy(SortBy(leads, YoungestFirst()), ActiveFirst())[0];
      && chosen in leads
      && forall l :: l in leads ==>
           || (chosen.state !in TERMINAL_STATES && l.state in TERMINAL_STATES)
           || ((chosen.state in TERMINAL_STATES <==> l.state in TERMINAL_STATES) && l.createdAt <= chosen.createdAt)
  {
    var young := SortBy(leads, YoungestFirst());
    var sorted := SortBy(young, ActiveFirst());
    var chosen := sorted[0];
    assert chosen in multiset(sorted) && chosen in multiset(leads);
    forall l | l in leads
      ensures || (chosen.state !in TERMINAL_STATES && l.state in TERMINAL_STATES)
              || ((chosen.state in TERMINAL_STATES <==> l.state in TERMINAL_STATES) && l.createdAt <= chosen.createdAt)
    {
      ChosenComesFirst(leads, l);
    }
  }

  // By the first key, and by the second where the first is the same.
  lemma ChosenComesFirst(leads: seq<Lead>, l: Lead)
    requires l in leads
    ensures SortBy(SortBy(leads, YoungestFirst()), ActiveFirst()) != []
    ensures var chosen := SortBy(SortBy(leads, YoungestFirst()), ActiveFirst())[0];
      && ActiveFirst()(chosen) <= ActiveFirst()(l)
      && (ActiveFirst()(chosen) == ActiveFirst()(l) ==> YoungestFirst()(chosen) <= YoungestFirst()(l))
  {
    var young := SortBy(leads, YoungestFirst());
    SortSorted(leads, YoungestFirst());
    assert l in multiset(leads) && l in multiset(young);
    FirstOfSame(young, ActiveFirst(), YoungestFirst(), l);
  }

  // A stable sort keeps what had the same key in the order it was in.
  lemma FirstOfSame<T(!new)>(s: seq<T>, key: T -> int, other: T -> int, x: T)
    requires SortedBy(s, other) && x in s
    ensures SortBy(s, key) != [] && key(SortBy(s, key)[0]) <= key(x)
    ensures key(SortBy(s, key)[0]) == key(x) ==> other(SortBy(s, key)[0]) <= other(x)
  {
    var sorted := SortBy(s, key);
    FirstIsLeast(s, key);
    var v := key(sorted[0]);
    if key(x) == v {
      SortSorted(s, key);
      SortStable(s, key, v);
      FirstWithKey(sorted, key);
      WithKeySorted(s, key, v, other);
      var same := WithKey(s, key, v);
      assert x in same && same[0] == sorted[0];
      var j :| 0 <= j < |same| && same[j] == x;
      assert other(same[0]) <= other(same[j]);
    }
  }
}
