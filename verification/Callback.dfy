/** Callback slots (callbackScheduling.ts). Instants are milliseconds; a civil date is named by its day
    number counted from 1970-01-01, so a local time is a day and a minute. */
module Callback {
  import opened Common
  import opened JsonModel
  import opened RecordMerge
  import MergeAlgebra
  import SnapshotMerge

  const MINUTE := 60_000
  const DAY_MINUTES := 1440

  datatype Local = Local(day: int, minute: int)

  // What the clocks of a zone show at an instant, to the minute.
  type Zone = int -> Local

  predicate IsTimeOfDay(l: Local) {
    0 <= l.minute < DAY_MINUTES
  }

  // Date.UTC
  function Utc(l: Local): int {
    (l.day * DAY_MINUTES + l.minute) * MINUTE
  }

  function Correction(zone: Zone, wall: int, candidate: int): int {
    candidate + (wall - Utc(zone(candidate)))
  }

  function Corrected(zone: Zone, wall: int, rounds: nat): int {
    if rounds == 0 then wall else Correction(zone, wall, Corrected(zone, wall, rounds - 1))
  }

  // None for a zone that does not exist and for a wall time the zone does not show.
  function LocalToUtc(zone: Option<Zone>, local: Local): Option<int> {
    if zone == None then None
    else
      var t := Corrected(zone.value, Utc(local), 3);
      if zone.value(t) == local then Some(t) else None
  }

  method ZonedLocalToUtc(local: Local, zone: Option<Zone>) returns (r: Option<int>)
    ensures r == LocalToUtc(zone, local)
    ensures r.Some? ==> zone.Some? && zone.value(r.value) == local
  {
    if zone == None {
      return None;
    }
    var wallUtc := Utc(local);
    var candidate := wallUtc;
    for i := 0 to 3
      invariant candidate == Corrected(zone.value, wallUtc, i)
    {
      var shown := zone.value(candidate);
      candidate := candidate + (wallUtc - Utc(shown));
    }
    r := if zone.value(candidate) == local then Some(candidate) else None;
  }

  // ----- zones given by an offset from UTC, in minutes, that depends on the instant

  function ShownAt(offset: int -> int): Zone {
    (t: int) =>
      var minutes := t / MINUTE + offset(t);
      Local(minutes / DAY_MINUTES, minutes % DAY_MINUTES)
  }

  lemma ShownIs(offset: int -> int, m: int)
    ensures var t := m * MINUTE;
      && IsTimeOfDay(ShownAt(offset)(t))
      && Utc(ShownAt(offset)(t)) == t + offset(t) * MINUTE
  {
    WholeMinutes(m);
    var minutes := m + offset(m * MINUTE);
    assert ShownAt(offset)(m * MINUTE) == Local(minutes / DAY_MINUTES, minutes % DAY_MINUTES);
    DayAndMinute(minutes);
  }

  lemma WholeMinutes(m: int)
    ensures m * MINUTE / MINUTE == m
  {
  }

  lemma DayAndMinute(minutes: int)
    ensures 0 <= minutes % DAY_MINUTES < DAY_MINUTES
    ensures minutes / DAY_MINUTES * DAY_MINUTES + minutes % DAY_MINUTES == minutes
  {
  }

  lemma ShownExactly(offset: int -> int, local: Local, m: int)
    requires IsTimeOfDay(local)
    ensures ShownAt(offset)(m * MINUTE) == local <==> m == local.day * DAY_MINUTES + local.minute - offset(m * MINUTE)
  {
    ShownIs(offset, m);
    UtcIsInjective(ShownAt(offset)(m * MINUTE), local);
  }

  lemma UtcIsInjective(a: Local, b: Local)
    requires IsTimeOfDay(a) && IsTimeOfDay(b)
    ensures Utc(a) == Utc(b) <==> a == b
    ensures Utc(a) < Utc(b) <==> a.day < b.day || (a.day == b.day && a.minute < b.minute)
  {
  }

  lemma CorrectionIs(offset: int -> int, wall: int, m: int)
    ensures Correction(ShownAt(offset), wall * MINUTE, m * MINUTE) == (wall - offset(m * MINUTE)) * MINUTE
  {
    ShownIs(offset, m);
  }

  lemma ThreeCorrections(offset: int -> int, w: int)
    ensures var m1 := w - offset(w * MINUTE);
            var m2 := w - offset(m1 * MINUTE);
            Corrected(ShownAt(offset), w * MINUTE, 3) == (w - offset(m2 * MINUTE)) * MINUTE
  {
    var zone := ShownAt(offset);
    var m1 := w - offset(w * MINUTE);
    var m2 := w - offset(m1 * MINUTE);
    CorrectionIs(offset, w, w);
    CorrectionIs(offset, w, m1);
    CorrectionIs(offset, w, m2);
    assert Corrected(zone, w * MINUTE, 1) == m1 * MINUTE;
    assert Corrected(zone, w * MINUTE, 2) == m2 * MINUTE;
  }

  // In a zone that ever uses at most two offsets (a standard and a summer time, whenever it changes
  // between them) three corrections are enough: an instant is returned exactly when some instant shows
  // the requested wall time. Only a skipped wall time is refused.
  lemma FoundExactly(offset: int -> int, a: int, b: int, local: Local)
    requires forall t :: offset(t) == a || offset(t) == b
    requires IsTimeOfDay(local)
    ensures LocalToUtc(Some(ShownAt(offset)), local).Some? <==> exists m: int :: ShownAt(offset)(m * MINUTE) == local
  {
    LocalToUtcIs(offset, local);
    if m: int :| ShownAt(offset)(m * MINUTE) == local {
      FoundWhenShown(offset, a, b, local, m);
    }
  }

  lemma FoundWhenShown(offset: int -> int, a: int, b: int, local: Local, m: int)
    requires forall t :: offset(t) == a || offset(t) == b
    requires IsTimeOfDay(local) && ShownAt(offset)(m * MINUTE) == local
    ensures LocalToUtc(Some(ShownAt(offset)), local).Some?
  {
    var w := local.day * DAY_MINUTES + local.minute;
    LocalToUtcIs(offset, local);
    ShownExactly(offset, local, m);
    ThirdIsRight(offset, a, b, w, m);
    ShownExactly(offset, local, w - offset((w - offset((w - offset(w * MINUTE)) * MINUTE)) * MINUTE));
  }

  lemma LocalToUtcIs(offset: int -> int, local: Local)
    ensures var w := local.day * DAY_MINUTES + local.minute;
            var m1 := w - offset(w * MINUTE);
            var m2 := w - offset(m1 * MINUTE);
            var m3 := w - offset(m2 * MINUTE);
            LocalToUtc(Some(ShownAt(offset)), local) == if ShownAt(offset)(m3 * MINUTE) == local then Some(m3 * MINUTE) else None
  {
    ThreeCorrections(offset, local.day * DAY_MINUTES + local.minute);
  }

  // With two offsets, once some instant fits the third correction does.
  lemma ThirdIsRight(offset: int -> int, a: int, b: int, w: int, m: int)
    requires forall t :: offset(t) == a || offset(t) == b
    requires m == w - offset(m * MINUTE)
    ensures var m1 := w - offset(w * MINUTE);
            var m2 := w - offset(m1 * MINUTE);
            var m3 := w - offset(m2 * MINUTE);
            m3 == w - offset(m3 * MINUTE)
  {
    var x, y := w - a, w - b;
    assert offset(x * MINUTE) in {a, b} && offset(y * MINUTE) in {a, b};
  }

  lemma ConstantOffset(offset: int, local: Local)
    requires IsTimeOfDay(local)
    ensures LocalToUtc(Some(ShownAt(_ => offset)), local) == Some(Utc(local) - offset * MINUTE)
  {
    var f := (_: int) => offset;
    var w := local.day * DAY_MINUTES + local.minute;
    assert ShownAt(_ => offset) == ShownAt(f);
    ThreeCorrections(f, w);
    ShownExactly(f, local, w - offset);
  }

  // ----- an officer's slots

  datatype Status = BOOKED | CONFIRMED | IN_PROGRESS | COMPLETED | CANCELLED | MISSED
  datatype Appointment = Appointment(officerId: Option<string>, startsAt: int, endsAt: int, status: Status)
  datatype Slot = Slot(startsAt: int, endsAt: int)

  // By id.
  type Appointments = map<string, Appointment>

  // The administrator's zone and policy, the officer with the hours worked, and the moment of asking.
  datatype Desk = Desk(zone: Option<Zone>, slotMinutes: int, bufferMinutes: int, leadMinutes: int, horizonDays: int)
  datatype Officer = Officer(id: string, startHour: int, endHour: int)

  datatype Request = Request(desk: Desk, officer: Officer, appointments: Appointments, now: int)

  function Today(q: Request): int {
    if q.desk.zone.Some? then q.desk.zone.value(q.now).day else 0
  }

  // Today and the days up to the horizon.
  function Days(q: Request): nat {
    Max(0, q.desk.horizonDays + 1)
  }

  // The bounds the settings form enforces.
  predicate IsPolicy(desk: Desk) {
    5 <= desk.slotMinutes <= 240 && 0 <= desk.bufferMinutes <= 120
  }

  predicate IsLive(a: Appointment) {
    a.status !in {CANCELLED, COMPLETED}
  }

  predicate Overlaps(startsAt: int, endsAt: int, a: Appointment, bufferMinutes: int) {
    var buffer := bufferMinutes * MINUTE;
    IsLive(a) && startsAt < a.endsAt + buffer && endsAt + buffer > a.startsAt
  }

  // 1970-01-01 was a Thursday, getUTCDay 4.
  function Weekday(day: int): int {
    (day + 4) % 7
  }

  // The officer's grid for one day from a given minute, and for the days up to the horizon, Sundays left out.
  function DayGrid(desk: Desk, officer: Officer, day: int, minute: int): seq<Local>
    requires IsPolicy(desk)
    decreases officer.endHour * 60 - minute
  {
    if minute + desk.slotMinutes > officer.endHour * 60 then []
    else [Local(day, minute)] + DayGrid(desk, officer, day, minute + desk.slotMinutes + desk.bufferMinutes)
  }

  function Grid(desk: Desk, officer: Officer, day: int, days: nat): seq<Local>
    requires IsPolicy(desk)
    decreases days
  {
    if days == 0 then []
    else
      (if Weekday(day) == 0 then [] else DayGrid(desk, officer, day, officer.startHour * 60))
      + Grid(desk, officer, day + 1, days - 1)
  }

  predicate Busy(desk: Desk, officer: Officer, appointments: Appointments, startsAt: int) {
    exists id :: id in appointments && appointments[id].officerId == Some(officer.id)
      && Overlaps(startsAt, startsAt + desk.slotMinutes * MINUTE, appointments[id], desk.bufferMinutes)
  }

  // What a grid point offers: nothing if the zone skips it, if it is too soon, or if the officer is taken.
  function Offer(q: Request, p: Local): Option<Slot> {
    var t := LocalToUtc(q.desk.zone, p);
    if t == None || t.value < q.now + q.desk.leadMinutes * MINUTE || Busy(q.desk, q.officer, q.appointments, t.value) then None
    else Some(Slot(t.value, t.value + q.desk.slotMinutes * MINUTE))
  }

  function Offered(o: Option<Slot>): seq<Slot> {
    if o.Some? then [o.value] else []
  }

  function Offers(q: Request, points: seq<Local>): seq<Slot> {
    if points == [] then []
    else Offered(Offer(q, points[0])) + Offers(q, points[1..])
  }

  function FirstOf(slots: seq<Slot>, limit: int): seq<Slot> {
    slots[..Max(0, Min(limit, |slots|))]
  }

  // Every slot a request made at this moment can be offered, in the order of the grid.
  function AllSlots(q: Request): seq<Slot>
    requires IsPolicy(q.desk)
  {
    Offers(q, Grid(q.desk, q.officer, Today(q), Days(q)))
  }

  lemma OffersCons(q: Request, p: Local, rest: seq<Local>)
    ensures Offers(q, [p] + rest)
            == Offered(Offer(q, p)) + Offers(q, rest)
  {
    assert ([p] + rest)[1..] == rest;
  }

  lemma {:induction false} OffersAppend(q: Request, a: seq<Local>, b: seq<Local>)
    ensures Offers(q, a + b)
            == Offers(q, a) + Offers(q, b)
  {
    if a == [] {
      assert a + b == b;
    } else {
      assert (a + b)[1..] == a[1..] + b;
      OffersAppend(q, a[1..], b);
    }
  }

  // Slots found before, found now and still to come: cutting early is cutting the whole list.
  lemma CutEarly(before: seq<Slot>, found: seq<Slot>, rest: seq<Slot>, limit: int)
    requires |before| < limit
    ensures |before + found| < limit ==> FirstOf(before + found, limit) == before + found
    ensures |before + found| >= limit ==>
      FirstOf(before + found, limit) == FirstOf(before + (found + rest), limit) && |FirstOf(before + found, limit)| == limit
    ensures before + (found + rest) == before + found + rest
  {
    assert before + (found + rest) == before + found + rest;
    if |before + found| >= limit {
      assert (before + found + rest)[..limit] == (before + found)[..limit];
    }
  }

  method OfferPoint(q: Request, point: Local) returns (offer: seq<Slot>)
    ensures offer == Offered(Offer(q, point))
  {
    var startsAt := ZonedLocalToUtc(point, q.desk.zone);
    if startsAt == None || startsAt.value < q.now + q.desk.leadMinutes * MINUTE {
      return [];
    }
    if Busy(q.desk, q.officer, q.appointments, startsAt.value) {
      return [];
    }
    return [Slot(startsAt.value, startsAt.value + q.desk.slotMinutes * MINUTE)];
  }

  // One day's inner loop: it goes on from the slots found so far and stops as soon as there are enough.
  method OfferDay(q: Request, day: int, limit: int, before: seq<Slot>)
    returns (output: seq<Slot>)
    requires IsPolicy(q.desk) && |before| < limit
    ensures output == FirstOf(before + Offers(q, DayGrid(q.desk, q.officer, day, q.officer.startHour * 60)), limit)
  {
    var minute := q.officer.startHour * 60;
    ghost var all := before + Offers(q, DayGrid(q.desk, q.officer, day, minute));
    output := before;
    while minute + q.desk.slotMinutes <= q.officer.endHour * 60
      invariant |output| < limit
      invariant output + Offers(q, DayGrid(q.desk, q.officer, day, minute)) == all
    {
      var next := minute + q.desk.slotMinutes + q.desk.bufferMinutes;
      ghost var rest := DayGrid(q.desk, q.officer, day, next);
      var offer := OfferPoint(q, Local(day, minute));
      OffersCons(q, Local(day, minute), rest);
      CutEarly(output, offer, Offers(q, rest), limit);
      output := output + offer;
      if |output| >= limit {
        return;
      }
      minute := next;
    }
    assert output == all;
  }

  // One day added to what was found before it.
  function WithDay(q: Request, day: int, limit: int, before: seq<Slot>): seq<Slot>
    requires IsPolicy(q.desk)
  {
    if Weekday(day) == 0 then before
    else FirstOf(before + Offers(q, DayGrid(q.desk, q.officer, day, q.officer.startHour * 60)), limit)
  }

  function DayByDay(q: Request, day: int, days: nat, limit: int, before: seq<Slot>): seq<Slot>
    requires IsPolicy(q.desk)
    decreases days
  {
    if days == 0 || |before| >= limit then before
    else DayByDay(q, day + 1, days - 1, limit, WithDay(q, day, limit, before))
  }

  // Going day by day and stopping early finds the first of all the slots.
  lemma {:induction false} DayByDayIs(q: Request, day: int, days: nat,
                                      limit: int, before: seq<Slot>)
    requires IsPolicy(q.desk) && |before| <= Max(0, limit)
    ensures DayByDay(q, day, days, limit, before)
            == FirstOf(before + Offers(q, Grid(q.desk, q.officer, day, days)), limit)
    decreases days
  {
    if days > 0 && |before| < limit {
      var next := WithDay(q, day, limit, before);
      DayByDayIs(q, day + 1, days - 1, limit, next);
      assert DayByDay(q, day, days, limit, before) == DayByDay(q, day + 1, days - 1, limit, next);
      WithDayIs(q, day, days, limit, before);
    }
  }

  lemma WithDayIs(q: Request, day: int, days: nat, limit: int, before: seq<Slot>)
    requires IsPolicy(q.desk) && days > 0 && |before| < limit
    ensures FirstOf(WithDay(q, day, limit, before) + Offers(q, Grid(q.desk, q.officer, day + 1, days - 1)), limit)
            == FirstOf(before + Offers(q, Grid(q.desk, q.officer, day, days)), limit)
  {
    var rest := Grid(q.desk, q.officer, day + 1, days - 1);
    if Weekday(day) == 0 {
      assert Grid(q.desk, q.officer, day, days) == [] + rest == rest;
    } else {
      var ofDay := DayGrid(q.desk, q.officer, day, q.officer.startHour * 60);
      assert Grid(q.desk, q.officer, day, days) == ofDay + rest;
      OffersAppend(q, ofDay, rest);
      CutTwice(before, Offers(q, ofDay), Offers(q, rest), limit);
    }
  }

  lemma CutTwice(before: seq<Slot>, found: seq<Slot>, rest: seq<Slot>, limit: int)
    requires |before| < limit
    ensures FirstOf(FirstOf(before + found, limit) + rest, limit) == FirstOf(before + (found + rest), limit)
  {
    CutEarly(before, found, rest, limit);
    if |before + found| >= limit {
      var cut := FirstOf(before + found, limit);
      assert (cut + rest)[..limit] == cut;
    }
  }

  // The outer loop.
  method OfferDays(q: Request, today: int, limit: int) returns (output: seq<Slot>)
    requires IsPolicy(q.desk)
    ensures output == DayByDay(q, today, Days(q), limit, [])
  {
    output := [];
    ghost var left := Days(q);
    var dayOffset, day := 0, today;
    while dayOffset <= q.desk.horizonDays && |output| < limit
      invariant dayOffset + left == Days(q) && day == today + dayOffset
      invariant DayByDay(q, day, left, limit, output) == DayByDay(q, today, Days(q), limit, [])
    {
      if Weekday(day) != 0 {
        output := OfferDay(q, day, limit, output);
      }
      dayOffset, day, left := dayOffset + 1, day + 1, left - 1;
    }
  }

  method GenerateCallbackSlots(q: Request, limit: int) returns (output: seq<Slot>)
    requires IsPolicy(q.desk)
    ensures output == FirstOf(AllSlots(q), limit)
  {
    output := OfferDays(q, Today(q), limit);
    DayByDayIs(q, Today(q), Days(q), limit, []);
    assert [] + AllSlots(q) == AllSlots(q);
  }

  // ----- what a slot promises

  lemma {:induction false} OffersAre(q: Request, points: seq<Local>)
    ensures forall s :: s in Offers(q, points) <==>
      exists p :: p in points && Offer(q, p) == Some(s)
  {
    if points != [] {
      OffersAre(q, points[1..]);
      assert points == [points[0]] + points[1..];
    }
  }

  // A missed callback takes its time as one still to come does.
  ghost predicate TakesTime(status: Status) {
    status == BOOKED || status == CONFIRMED || status == IN_PROGRESS || status == MISSED
  }

  // The officer is taken exactly if an appointment of theirs that takes time is closer than the buffer.
  lemma BusyExactly(desk: Desk, officer: Officer, appointments: Appointments, startsAt: int)
    ensures Busy(desk, officer, appointments, startsAt) <==>
      exists id :: id in appointments && appointments[id].officerId == Some(officer.id) && TakesTime(appointments[id].status)
        && !Apart(startsAt, startsAt + desk.slotMinutes * MINUTE, appointments[id].startsAt, appointments[id].endsAt, desk.bufferMinutes)
  {
    if Busy(desk, officer, appointments, startsAt) {
      var id :| id in appointments && appointments[id].officerId == Some(officer.id)
             && Overlaps(startsAt, startsAt + desk.slotMinutes * MINUTE, appointments[id], desk.bufferMinutes);
      assert TakesTime(appointments[id].status);
    }
    forall id | id in appointments && TakesTime(appointments[id].status)
      ensures Overlaps(startsAt, startsAt + desk.slotMinutes * MINUTE, appointments[id], desk.bufferMinutes) <==>
              !Apart(startsAt, startsAt + desk.slotMinutes * MINUTE, appointments[id].startsAt, appointments[id].endsAt, desk.bufferMinutes)
    {
    }
  }

  // The first Sunday of 1970 was the fourth of January, day 3.
  ghost predicate IsSunday(day: int) {
    (day - 3) % 7 == 0
  }

  lemma SundayExactly(day: int)
    ensures Weekday(day) == 0 <==> IsSunday(day)
  {
  }

  function StepAt(desk: Desk, start: int, n: nat): int {
    start + n * (desk.slotMinutes + desk.bufferMinutes)
  }

  // A step of the grid: whole slots with their buffers from the start of the day, the last ending in time.
  ghost predicate OnGrid(desk: Desk, officer: Officer, minute: int, start: int) {
    minute + desk.slotMinutes <= officer.endHour * 60 && exists n: nat :: minute == StepAt(desk, start, n)
  }

  lemma {:induction false} DayGridExactly(desk: Desk, officer: Officer, day: int, start: int, p: Local)
    requires IsPolicy(desk)
    ensures p in DayGrid(desk, officer, day, start) <==> p.day == day && OnGrid(desk, officer, p.minute, start)
    decreases officer.endHour * 60 - start
  {
    if start + desk.slotMinutes > officer.endHour * 60 {
      if n: nat :| p.minute == StepAt(desk, start, n) {
        StepsAscend(desk, start, n);
      }
    } else {
      var rest := DayGrid(desk, officer, day, start + desk.slotMinutes + desk.bufferMinutes);
      DayGridExactly(desk, officer, day, start + desk.slotMinutes + desk.bufferMinutes, p);
      MinuteSteps(desk, officer, p.minute, start);
      assert DayGrid(desk, officer, day, start) == [Local(day, start)] + rest;
    }
  }

  lemma StepsAscend(desk: Desk, start: int, n: nat)
    requires IsPolicy(desk)
    ensures StepAt(desk, start, n) >= start
  {
  }

  lemma MinuteSteps(desk: Desk, officer: Officer, minute: int, start: int)
    requires IsPolicy(desk) && start + desk.slotMinutes <= officer.endHour * 60
    ensures OnGrid(desk, officer, minute, start) <==> minute == start || OnGrid(desk, officer, minute, start + desk.slotMinutes + desk.bufferMinutes)
  {
    var step := desk.slotMinutes + desk.bufferMinutes;
    if n: nat :| minute == StepAt(desk, start, n) {
      if n > 0 {
        assert minute == StepAt(desk, start + step, n - 1);
      }
    }
    var next := start + step;
    if n: nat :| minute == StepAt(desk, next, n) {
      assert minute == StepAt(desk, start, n + 1);
    }
    assert start == StepAt(desk, start, 0);
  }

  // A point of this day's part of the grid.
  ghost predicate OfADay(desk: Desk, officer: Officer, day: int, p: Local)
    requires IsPolicy(desk)
  {
    Weekday(day) != 0 && p in DayGrid(desk, officer, day, officer.startHour * 60)
  }

  // Days put together one by one, d the only one that can have the point.
  lemma {:induction false} OneDay(inGrid: (int, nat) -> bool, inDay: int -> bool, day: int, days: nat, d: int)
    requires forall x, n: nat :: n > 0 ==> (inGrid(x, n) <==> inDay(x) || inGrid(x + 1, n - 1))
    requires forall x :: !inGrid(x, 0)
    requires forall x :: inDay(x) ==> x == d
    ensures inGrid(day, days) <==> day <= d < day + days && inDay(d)
    decreases days
  {
    if days > 0 {
      OneDay(inGrid, inDay, day + 1, days - 1, d);
    }
  }

  function InGrid(desk: Desk, officer: Officer, p: Local): (int, nat) -> bool
    requires IsPolicy(desk)
  {
    (x: int, n: nat) => p in Grid(desk, officer, x, n)
  }

  ghost function InDay(desk: Desk, officer: Officer, p: Local): int -> bool
    requires IsPolicy(desk)
  {
    (x: int) => OfADay(desk, officer, x, p)
  }

  lemma DaysJoin(desk: Desk, officer: Officer, p: Local)
    requires IsPolicy(desk)
    ensures var inGrid, inDay := InGrid(desk, officer, p), InDay(desk, officer, p);
            forall x, n: nat :: n > 0 ==> (inGrid(x, n) <==> inDay(x) || inGrid(x + 1, n - 1))
  {
    forall x, n: nat | n > 0 ensures InGrid(desk, officer, p)(x, n) <==> InDay(desk, officer, p)(x) || InGrid(desk, officer, p)(x + 1, n - 1) {
      GridStep(desk, officer, x, n, p);
    }
  }

  lemma DaysDiffer(desk: Desk, officer: Officer, p: Local)
    requires IsPolicy(desk)
    ensures forall x :: InDay(desk, officer, p)(x) ==> x == p.day
  {
    forall x | InDay(desk, officer, p)(x) ensures x == p.day {
      OfThatDay(desk, officer, x, p);
    }
  }

  lemma GridDays(desk: Desk, officer: Officer, day: int, days: nat, p: Local)
    requires IsPolicy(desk)
    ensures InGrid(desk, officer, p)(day, days) <==> day <= p.day < day + days && InDay(desk, officer, p)(p.day)
  {
    DaysJoin(desk, officer, p);
    DaysDiffer(desk, officer, p);
    OneDay(InGrid(desk, officer, p), InDay(desk, officer, p), day, days, p.day);
  }

  lemma GridStep(desk: Desk, officer: Officer, day: int, days: nat, p: Local)
    requires IsPolicy(desk) && days > 0
    ensures p in Grid(desk, officer, day, days) <==>
      || OfADay(desk, officer, day, p)
      || p in Grid(desk, officer, day + 1, days - 1)
  {
    var today := if Weekday(day) == 0 then [] else DayGrid(desk, officer, day, officer.startHour * 60);
    assert Grid(desk, officer, day, days) == today + Grid(desk, officer, day + 1, days - 1);
    InEither(today, Grid(desk, officer, day + 1, days - 1), p);
  }

  lemma OfThatDay(desk: Desk, officer: Officer, day: int, p: Local)
    requires IsPolicy(desk)
    ensures OfADay(desk, officer, day, p) ==> p.day == day
  {
    DayGridExactly(desk, officer, day, officer.startHour * 60, p);
  }

  // The grid: every such step of every day from today to the horizon that is not a Sunday.
  lemma GridExactly(desk: Desk, officer: Officer, day: int, days: nat, p: Local)
    requires IsPolicy(desk)
    ensures p in Grid(desk, officer, day, days) <==>
      day <= p.day < day + days && !IsSunday(p.day) && OnGrid(desk, officer, p.minute, officer.startHour * 60)
  {
    GridDays(desk, officer, day, days, p);
    DayGridExactly(desk, officer, p.day, officer.startHour * 60, p);
    SundayExactly(p.day);
  }

  lemma GridBounds(desk: Desk, officer: Officer, day: int, days: nat, p: Local)
    requires IsPolicy(desk) && p in Grid(desk, officer, day, days)
    ensures day <= p.day < day + days && !IsSunday(p.day)
    ensures officer.startHour * 60 <= p.minute && p.minute + desk.slotMinutes <= officer.endHour * 60
  {
    GridExactly(desk, officer, day, days, p);
    var n: nat :| p.minute == StepAt(desk, officer.startHour * 60, n);
    StepsAscend(desk, officer.startHour * 60, n);
  }

  lemma InEither(a: seq<Local>, b: seq<Local>, p: Local)
    ensures p in a + b <==> p in a || p in b
  {
  }

  // A point of the officer's grid from the day it is in the zone to the last day of the horizon.
  ghost predicate InHorizon(q: Request, p: Local) {
    && q.desk.zone.Some?
    && 0 <= p.day - q.desk.zone.value(q.now).day <= q.desk.horizonDays && !IsSunday(p.day)
    && OnGrid(q.desk, q.officer, p.minute, q.officer.startHour * 60)
  }

  lemma HorizonExactly(q: Request, p: Local)
    requires IsPolicy(q.desk) && q.desk.zone.Some?
    ensures p in Grid(q.desk, q.officer, Today(q), Days(q)) <==> InHorizon(q, p)
  {
    GridExactly(q.desk, q.officer, Today(q), Days(q), p);
  }

  // In any zone: a slot is on offer exactly if it starts at the moment of such a point that the zone shows,
  // no sooner than the minimum lead time, with the officer free.
  lemma OfferedExactly(q: Request, slot: Slot)
    requires IsPolicy(q.desk)
    ensures slot in AllSlots(q) <==>
      && slot.endsAt == slot.startsAt + q.desk.slotMinutes * MINUTE
      && slot.startsAt >= q.now + q.desk.leadMinutes * MINUTE
      && !Busy(q.desk, q.officer, q.appointments, slot.startsAt)
      && exists p :: InHorizon(q, p) && LocalToUtc(q.desk.zone, p) == Some(slot.startsAt)
  {
    var grid := Grid(q.desk, q.officer, Today(q), Days(q));
    OffersAre(q, grid);
    forall p | q.desk.zone.Some?
      ensures Offer(q, p) == Some(slot) <==> Fits(q, p, slot)
      ensures p in grid <==> InHorizon(q, p)
    {
      OfferExactly(q, p, slot);
      HorizonExactly(q, p);
    }
  }

  // This slot, if the zone shows the grid point at its start.
  ghost predicate Fits(q: Request, p: Local, slot: Slot) {
    && slot.endsAt == slot.startsAt + q.desk.slotMinutes * MINUTE
    && slot.startsAt >= q.now + q.desk.leadMinutes * MINUTE
    && !Busy(q.desk, q.officer, q.appointments, slot.startsAt)
    && LocalToUtc(q.desk.zone, p) == Some(slot.startsAt)
  }

  lemma OfferExactly(q: Request, p: Local, slot: Slot)
    ensures Offer(q, p) == Some(slot) <==> Fits(q, p, slot)
  {
  }

  // In any zone: a slot starts at a moment that shows a point of the officer's grid, so within working
  // hours and not on a Sunday, no sooner than the minimum lead time, and clear of every live appointment.
  lemma SlotIsAdmissible(q: Request, slot: Slot)
    requires IsPolicy(q.desk) && slot in AllSlots(q)
    ensures q.desk.zone.Some? && slot.endsAt == slot.startsAt + q.desk.slotMinutes * MINUTE
    ensures var shown := q.desk.zone.value(slot.startsAt);
      && !IsSunday(shown.day)
      && q.officer.startHour * 60 <= shown.minute && shown.minute + q.desk.slotMinutes <= q.officer.endHour * 60
    ensures slot.startsAt >= q.now + q.desk.leadMinutes * MINUTE
    ensures forall id :: id in q.appointments && q.appointments[id].officerId == Some(q.officer.id) && TakesTime(q.appointments[id].status) ==>
      Apart(slot.startsAt, slot.endsAt, q.appointments[id].startsAt, q.appointments[id].endsAt, q.desk.bufferMinutes)
  {
    var grid := Grid(q.desk, q.officer, Today(q), Days(q));
    OffersAre(q, grid);
    var p :| p in grid && Offer(q, p) == Some(slot);
    GridBounds(q.desk, q.officer, Today(q), Days(q), p);
    forall id | id in q.appointments && q.appointments[id].officerId == Some(q.officer.id) && TakesTime(q.appointments[id].status)
      ensures Apart(slot.startsAt, slot.endsAt, q.appointments[id].startsAt, q.appointments[id].endsAt, q.desk.bufferMinutes)
    {
      assert !Overlaps(slot.startsAt, slot.startsAt + q.desk.slotMinutes * MINUTE, q.appointments[id], q.desk.bufferMinutes);
    }
  }

  predicate Apart(s: int, e: int, s': int, e': int, bufferMinutes: int) {
    e + bufferMinutes * MINUTE <= s' || e' + bufferMinutes * MINUTE <= s
  }

  predicate Clash(a: Appointment, b: Appointment, bufferMinutes: int) {
    && IsLive(a) && IsLive(b) && a.officerId.Some? && a.officerId == b.officerId
    && !Apart(a.startsAt, a.endsAt, b.startsAt, b.endsAt, bufferMinutes)
  }

  // No officer has two live appointments closer together than the buffer.
  ghost predicate Separated(appointments: Appointments, bufferMinutes: int) {
    forall x, y :: x in appointments && y in appointments && x != y ==> !Clash(appointments[x], appointments[y], bufferMinutes)
  }

  // Book the n-th of the slots offered at this moment under a new id, or move a live appointment to
  // another status.
  datatype Event =
    | Book(id: string, zone: Option<Zone>, leadMinutes: int, horizonDays: int, officer: Officer, now: int, limit: int, n: nat)
    | Mark(which: string, status: Status)

  function RequestOf(desk: Desk, appointments: Appointments, e: Event): Request
    requires e.Book?
  {
    Request(desk.(zone := e.zone, leadMinutes := e.leadMinutes, horizonDays := e.horizonDays), e.officer, appointments, e.now)
  }

  // The slot a booking takes, if that many are offered.
  function Taken(desk: Desk, appointments: Appointments, e: Event): Option<Slot>
    requires IsPolicy(desk) && e.Book?
  {
    var slots := FirstOf(AllSlots(RequestOf(desk, appointments, e)), e.limit);
    if e.n < |slots| then Some(slots[e.n]) else None
  }

  function Next(desk: Desk, appointments: Appointments, e: Event): Appointments
    requires IsPolicy(desk)
  {
    match e
    case Book(id, _, _, _, officer, _, _, _) =>
      var slot := Taken(desk, appointments, e);
      if slot.Some? && id !in appointments
      then appointments[id := Appointment(Some(officer.id), slot.value.startsAt, slot.value.endsAt, BOOKED)] else appointments
    case Mark(which, status) =>
      if which in appointments && IsLive(appointments[which])
      then appointments[which := appointments[which].(status := status)] else appointments
  }

  function Run(desk: Desk, appointments: Appointments, events: seq<Event>): Appointments
    requires IsPolicy(desk)
    decreases |events|
  {
    if events == [] then appointments else Run(desk, Next(desk, appointments, events[0]), events[1..])
  }

  // Booking any offered slot keeps the officers' appointments apart, whatever the zone does and however
  // many rounds of booking, confirming and cancelling one instance goes through.
  lemma {:induction false} BookingKeepsApart(desk: Desk, appointments: Appointments, events: seq<Event>)
    requires IsPolicy(desk) && Separated(appointments, desk.bufferMinutes)
    ensures Separated(Run(desk, appointments, events), desk.bufferMinutes)
    decreases |events|
  {
    if events != [] {
      NextKeepsApart(desk, appointments, events[0]);
      BookingKeepsApart(desk, Next(desk, appointments, events[0]), events[1..]);
    }
  }

  lemma NextKeepsApart(desk: Desk, appointments: Appointments, e: Event)
    requires IsPolicy(desk) && Separated(appointments, desk.bufferMinutes)
    ensures Separated(Next(desk, appointments, e), desk.bufferMinutes)
  {
    var next := Next(desk, appointments, e);
    if e.Book? && next != appointments {
      TakenIsApart(desk, appointments, e);
      BookedIsApart(appointments, e.id, next[e.id], desk.bufferMinutes);
    }
  }

  // Booking adds the chosen slot of those on offer, booked with the officer, under an id that was free; marking
  // gives an appointment that takes time another status; and neither touches any other appointment.
  lemma EventExactly(desk: Desk, appointments: Appointments, e: Event, id: string)
    requires IsPolicy(desk)
    ensures Lookup(Next(desk, appointments, e), id) ==
      match e
      case Book(new_, _, _, _, officer, _, limit, n) =>
        var slots := FirstOf(AllSlots(RequestOf(desk, appointments, e)), limit);
        if id == new_ && id !in appointments && n < |slots| then Some(Appointment(Some(officer.id), slots[n].startsAt, slots[n].endsAt, BOOKED))
        else Lookup(appointments, id)
      case Mark(which, status) =>
        if id == which && id in appointments && TakesTime(appointments[id].status) then Some(appointments[id].(status := status))
        else Lookup(appointments, id)
  {
  }

  lemma TakenIsApart(desk: Desk, appointments: Appointments, e: Event)
    requires IsPolicy(desk) && e.Book? && Taken(desk, appointments, e).Some?
    ensures var slot := Taken(desk, appointments, e).value;
            forall id :: id in appointments ==>
              !Clash(Appointment(Some(e.officer.id), slot.startsAt, slot.endsAt, BOOKED), appointments[id], desk.bufferMinutes)
  {
    SlotIsAdmissible(RequestOf(desk, appointments, e), Taken(desk, appointments, e).value);
  }

  lemma BookedIsApart(appointments: Appointments, id: string, a: Appointment, bufferMinutes: int)
    requires Separated(appointments, bufferMinutes) && id !in appointments
    requires forall x :: x in appointments ==> !Clash(a, appointments[x], bufferMinutes)
    ensures Separated(appointments[id := a], bufferMinutes)
  {
    assert forall x :: x in appointments ==> (Clash(a, appointments[x], bufferMinutes) <==> Clash(appointments[x], a, bufferMinutes));
  }

  // ----- booking on several instances, each on the copy of the store it loaded

  // What an instance last loaded or saved, and what it has made of it.
  datatype Copy = Copy(base: Appointments, mine: Appointments)

  // booked has every appointment ever made, under its own id.
  datatype World = World(row: Appointments, copies: seq<Copy>, booked: Appointments)

  datatype Step =
    | Refresh(i: nat)
    | Work(i: nat, event: Event)
    | Save(i: nat)

  predicate Edited(c: Copy, id: string) {
    id in c.mine && (id !in c.base || c.base[id] != c.mine[id])
  }

  // The row after a save: its own new and changed appointments put onto the row.
  function Merged(c: Copy, row: Appointments): Appointments {
    map id | id in row.Keys + c.mine.Keys && (id in row || Edited(c, id)) :: if Edited(c, id) then c.mine[id] else row[id]
  }

  function Advance(desk: Desk, w: World, step: Step): World
    requires IsPolicy(desk)
  {
    if step.i >= |w.copies| then w
    else
      var c := w.copies[step.i];
      match step
      case Refresh(i) => w.(copies := w.copies[i := Copy(w.row, w.row)])
      case Work(i, e) =>
        if e.Book? && e.id in w.booked then w
        else
          var mine := Next(desk, c.mine, e);
          w.(copies := w.copies[i := c.(mine := mine)],
             booked := if e.Book? && e.id in mine then w.booked[e.id := mine[e.id]] else w.booked)
      case Save(i) =>
        var row := Merged(c, w.row);
        w.(row := row, copies := w.copies[i := Copy(row, row)])
  }

  function Steps(desk: Desk, w: World, steps: seq<Step>): World
    requires IsPolicy(desk)
    decreases |steps|
  {
    if steps == [] then w else Steps(desk, Advance(desk, w, steps[0]), steps[1..])
  }

  function Opening(n: nat): World {
    World(map[], seq(n, i => Copy(map[], map[])), map[])
  }

  predicate SameSlot(a: Appointment, b: Appointment) {
    a.officerId == b.officerId && a.startsAt == b.startsAt && a.endsAt == b.endsAt
  }

  ghost predicate AreBooked(m: Appointments, booked: Appointments) {
    forall id :: id in m ==> id in booked && SameSlot(m[id], booked[id])
  }

  // Appointments never leave a copy or the row, and never move.
  ghost predicate CopyOk(w: World, c: Copy) {
    && AreBooked(c.base, w.booked) && AreBooked(c.mine, w.booked)
    && c.base.Keys <= w.row.Keys && c.base.Keys <= c.mine.Keys
  }

  ghost predicate Inv(w: World) {
    AreBooked(w.row, w.booked) && forall i :: 0 <= i < |w.copies| ==> CopyOk(w, w.copies[i])
  }

  ghost predicate AllSeparated(w: World, bufferMinutes: int) {
    Separated(w.row, bufferMinutes) && forall i :: 0 <= i < |w.copies| ==> Separated(w.copies[i].mine, bufferMinutes)
  }

  lemma AdvanceKeepsInv(desk: Desk, w: World, step: Step)
    requires IsPolicy(desk) && Inv(w)
    ensures Inv(Advance(desk, w, step))
  {
    var after := Advance(desk, w, step);
    if step.i < |w.copies| {
      forall i | 0 <= i < |after.copies| ensures CopyOk(after, after.copies[i]) {
        assert CopyOk(w, w.copies[i]);
        assert i != step.i ==> after.copies[i] == w.copies[i];
      }
    }
  }

  // That this is what the merge does to the records of one collection.

  const CALLBACK_APPOINTMENTS := "callbackAppointments"

  function NameOf(s: Status): string {
    match s
    case BOOKED => "BOOKED"
    case CONFIRMED => "CONFIRMED"
    case IN_PROGRESS => "IN_PROGRESS"
    case COMPLETED => "COMPLETED"
    case CANCELLED => "CANCELLED"
    case MISSED => "MISSED"
  }

  function RecordOf(a: Appointment): Json {
    var fields := map["startsAt" := Num(a.startsAt), "endsAt" := Num(a.endsAt), "status" := Str(NameOf(a.status))];
    Obj(if a.officerId.Some? then fields["officerId" := Str(a.officerId.value)] else fields)
  }

  function Entries(m: Appointments): map<string, Json> {
    map id | id in m :: RecordOf(m[id])
  }

  // s holds exactly these appointments.
  predicate Holds(s: SnapshotMerge.Snapshot, m: Appointments) {
    CALLBACK_APPOINTMENTS in s.collections && s.collections[CALLBACK_APPOINTMENTS].keyed == Entries(m)
  }

  lemma NamesDiffer(s: Status, t: Status)
    ensures NameOf(s) == NameOf(t) <==> s == t
  {
    var a, b := NameOf(s), NameOf(t);
    assert |a| > 2 && |b| > 2;
    assert s != t ==> |a| != |b| || a[0] != b[0] || a[1] != b[1] || a[2] != b[2];
  }

  lemma RecordsDiffer(a: Appointment, b: Appointment)
    ensures RecordOf(a) == RecordOf(b) <==> a == b
  {
    var f, g := RecordOf(a).fields, RecordOf(b).fields;
    NamesDiffer(a.status, b.status);
    if f == g {
      assert f["startsAt"] == g["startsAt"] && f["endsAt"] == g["endsAt"] && f["status"] == g["status"];
      assert "officerId" in f <==> "officerId" in g;
      assert a.officerId.Some? ==> f["officerId"] == g["officerId"];
    }
  }

  lemma StatusMerges(h: Host, base: Appointment, mine: Appointment, row: Appointment)
    requires SameSlot(base, mine) && SameSlot(mine, row) && base != mine
    ensures MergedRecord(h, CALLBACK_APPOINTMENTS, Some(RecordOf(base)), RecordOf(mine), Some(RecordOf(row))) == RecordOf(mine)
  {
    var b, c, l := RecordOf(base).fields, RecordOf(mine).fields, RecordOf(row).fields;
    NamesDiffer(base.status, mine.status);
    FieldsAt(h, CALLBACK_APPOINTMENTS, b, c, l);
    SameMap(MergedFields(h, CALLBACK_APPOINTMENTS, b, c, l), c);
  }

  lemma AppointmentMerges(h: Host, w: World, c: Copy, id: string)
    requires Inv(w) && CopyOk(w, c) && id in c.base
    ensures id in c.mine && id in w.row && Merged(c, w.row)[id] == (if c.base[id] == c.mine[id] then w.row[id] else c.mine[id])
    ensures SnapshotMerge.MergedCell(h, CALLBACK_APPOINTMENTS, Some(RecordOf(c.base[id])), Some(RecordOf(c.mine[id])), Some(RecordOf(w.row[id])))
            == Some(RecordOf(Merged(c, w.row)[id]))
  {
    assert id in c.mine && id in w.row && SameSlot(c.mine[id], w.booked[id]) && SameSlot(w.row[id], w.booked[id]);
    assert SameSlot(c.base[id], w.booked[id]);
    RecordsDiffer(c.base[id], c.mine[id]);
    if c.base[id] != c.mine[id] {
      StatusMerges(h, c.base[id], c.mine[id], w.row[id]);
    }
  }

  // Whatever else the copies of the store hold, a save leaves the appointments that Merged says.
  lemma SavedIsMerged(h: Host, base: SnapshotMerge.Snapshot, cur: SnapshotMerge.Snapshot, latest: SnapshotMerge.Snapshot, w: World, c: Copy)
    requires Inv(w) && CopyOk(w, c) && Holds(base, c.base) && Holds(cur, c.mine) && Holds(latest, w.row)
    ensures Holds(SnapshotMerge.MergedSnapshot(h, Some(base), cur, latest), Merged(c, w.row))
  {
    var merged := SnapshotMerge.MergedSnapshot(h, Some(base), cur, latest);
    MergeAlgebra.SnapshotAt(h, Some(base), cur, latest);
    forall id ensures Lookup(merged.collections[CALLBACK_APPOINTMENTS].keyed, id) == Lookup(Entries(Merged(c, w.row)), id) {
      assert SnapshotMerge.Record(merged, CALLBACK_APPOINTMENTS, id)
          == MergeAlgebra.MergedAt(h, Some(base), cur, latest, CALLBACK_APPOINTMENTS, id);
      CellIsMerged(h, base, cur, latest, w, c, id);
    }
    SameMap(merged.collections[CALLBACK_APPOINTMENTS].keyed, Entries(Merged(c, w.row)));
  }

  lemma CellIsMerged(h: Host, base: SnapshotMerge.Snapshot, cur: SnapshotMerge.Snapshot, latest: SnapshotMerge.Snapshot, w: World, c: Copy, id: string)
    requires Inv(w) && CopyOk(w, c) && Holds(base, c.base) && Holds(cur, c.mine) && Holds(latest, w.row)
    ensures MergeAlgebra.MergedAt(h, Some(base), cur, latest, CALLBACK_APPOINTMENTS, id) == Lookup(Entries(Merged(c, w.row)), id)
  {
    if id in c.base {
      AppointmentMerges(h, w, c, id);
    }
  }

  // What an instance adds to the live appointments by saving: booked by it, or reopened by it while the
  // row has it closed.
  predicate Adds(c: Copy, row: Appointments, id: string) {
    Edited(c, id) && IsLive(c.mine[id]) && (id !in row || !IsLive(row[id]))
  }

  // Nothing it adds clashes with an appointment the row has that it did not touch itself.
  ghost predicate IsClear(c: Copy, row: Appointments, bufferMinutes: int) {
    forall x, y :: Adds(c, row, x) && y in row && !Edited(c, y) ==> !Clash(c.mine[x], row[y], bufferMinutes)
  }

  lemma ClearKeepsApart(w: World, c: Copy, bufferMinutes: int)
    requires Inv(w) && c in w.copies && AllSeparated(w, bufferMinutes) && IsClear(c, w.row, bufferMinutes)
    ensures Separated(Merged(c, w.row), bufferMinutes)
  {
    var m := Merged(c, w.row);
    assert CopyOk(w, c) && Separated(c.mine, bufferMinutes);
    forall x, y | x in m && y in m && x != y ensures !Clash(m[x], m[y], bufferMinutes) {
      if Edited(c, x) && !Edited(c, y) {
        assert x in w.row ==> SameSlot(c.mine[x], w.row[x]);
      } else if !Edited(c, x) && Edited(c, y) {
        assert y in w.row ==> SameSlot(c.mine[y], w.row[y]);
        assert !Clash(m[y], m[x], bufferMinutes);
      }
    }
  }

  // One step breaks the separation exactly if it is a save that is not clear.
  lemma StepIsClearExactly(desk: Desk, w: World, step: Step)
    requires IsPolicy(desk) && Inv(w) && AllSeparated(w, desk.bufferMinutes)
    ensures AllSeparated(Advance(desk, w, step), desk.bufferMinutes) <==>
      (step.Save? && step.i < |w.copies| ==> IsClear(w.copies[step.i], w.row, desk.bufferMinutes))
  {
    if step.i < |w.copies| {
      var c := w.copies[step.i];
      match step
      case Refresh(_) =>
      case Work(_, e) => NextKeepsApart(desk, c.mine, e);
      case Save(_) =>
        var m := Merged(c, w.row);
        if IsClear(c, w.row, desk.bufferMinutes) {
          ClearKeepsApart(w, c, desk.bufferMinutes);
        } else {
          var x, y :| Adds(c, w.row, x) && y in w.row && !Edited(c, y) && Clash(c.mine[x], w.row[y], desk.bufferMinutes);
          assert Clash(m[x], m[y], desk.bufferMinutes);
        }
    }
  }

  ghost predicate AlwaysSeparated(desk: Desk, w: World, steps: seq<Step>)
    requires IsPolicy(desk)
    decreases |steps|
  {
    AllSeparated(w, desk.bufferMinutes) && (steps == [] || AlwaysSeparated(desk, Advance(desk, w, steps[0]), steps[1..]))
  }

  ghost predicate SavesAreClear(desk: Desk, w: World, steps: seq<Step>)
    requires IsPolicy(desk)
    decreases |steps|
  {
    steps == [] ||
    (&& (steps[0].Save? && steps[0].i < |w.copies| ==> IsClear(w.copies[steps[0].i], w.row, desk.bufferMinutes))
     && SavesAreClear(desk, Advance(desk, w, steps[0]), steps[1..]))
  }

  lemma {:induction false} SeparatedExactly(desk: Desk, w: World, steps: seq<Step>)
    requires IsPolicy(desk) && Inv(w) && AllSeparated(w, desk.bufferMinutes)
    ensures AlwaysSeparated(desk, w, steps) <==> SavesAreClear(desk, w, steps)
    decreases |steps|
  {
    if steps != [] {
      AdvanceKeepsInv(desk, w, steps[0]);
      StepIsClearExactly(desk, w, steps[0]);
      if AllSeparated(Advance(desk, w, steps[0]), desk.bufferMinutes) {
        SeparatedExactly(desk, Advance(desk, w, steps[0]), steps[1..]);
      }
    }
  }

  // Over every interleaving of bookings, status changes, reloads and saves of any number of instances:
  // the officers' appointments stay apart, in the row and in every copy, exactly if every save is clear.
  lemma EveryBookingRun(desk: Desk, n: nat, steps: seq<Step>)
    requires IsPolicy(desk)
    ensures AlwaysSeparated(desk, Opening(n), steps) <==> SavesAreClear(desk, Opening(n), steps)
  {
    SeparatedExactly(desk, Opening(n), steps);
  }

  // A save by an instance that has the newest row is clear.
  lemma UpToDateIsClear(desk: Desk, w: World, i: nat)
    requires Inv(w) && i < |w.copies| && AllSeparated(w, desk.bufferMinutes) && w.copies[i].base == w.row
    ensures IsClear(w.copies[i], w.row, desk.bufferMinutes)
  {
    assert CopyOk(w, w.copies[i]);
  }

  // Two instances that hold the same row book whichever slot is on offer, and the row has both.
  lemma BothBookIt(desk: Desk, row: Appointments, booked: Appointments, e: Event, other: string)
    requires IsPolicy(desk) && e.Book? && Taken(desk, row, e).Some?
    requires e.id !in booked && other !in booked && e.id != other && AreBooked(row, booked)
    ensures var w := World(row, [Copy(row, row), Copy(row, row)], booked);
            var after := Steps(desk, w, [Work(0, e), Work(1, e.(id := other))] + [Save(0), Save(1)]);
      && e.id in after.row && other in after.row && SameSlot(after.row[e.id], after.row[other])
      && !Separated(after.row, desk.bufferMinutes)
  {
    var f := e.(id := other);
    var steps := [Work(0, e), Work(1, f)] + [Save(0), Save(1)];
    var w := World(row, [Copy(row, row), Copy(row, row)], booked);
    var slot := Taken(desk, row, e).value;
    assert RequestOf(desk, row, f) == RequestOf(desk, row, e);
    SlotIsAdmissible(RequestOf(desk, row, e), slot);
    var a := Appointment(Some(e.officer.id), slot.startsAt, slot.endsAt, BOOKED);
    var one := Advance(desk, w, steps[0]);
    assert one == World(row, [Copy(row, row[e.id := a]), Copy(row, row)], booked[e.id := a]);
    var two := Advance(desk, one, steps[1]);
    assert two.copies == [Copy(row, row[e.id := a]), Copy(row, row[other := a])] && two.row == row;
    var three := Advance(desk, two, steps[2]);
    assert three.copies[1] == Copy(row, row[other := a]) && three.row[e.id] == a;
    var four := Advance(desk, three, steps[3]);
    assert four.row[e.id] == a && four.row[other] == a;
    StepsFour(desk, w, steps);
    assert Clash(a, a, desk.bufferMinutes);
  }

  lemma StepsFour(desk: Desk, w: World, s: seq<Step>)
    requires IsPolicy(desk) && |s| == 4
    ensures Steps(desk, w, s) == Advance(desk, Advance(desk, Advance(desk, Advance(desk, w, s[0]), s[1]), s[2]), s[3])
  {
    assert s[1..][1..] == s[2..] && s[2..][1..] == s[3..] && s[3..][1..] == [];
    assert s[1..][0] == s[1] && s[2..][0] == s[2] && s[3..][0] == s[3];
    var one := Advance(desk, w, s[0]);
    var two := Advance(desk, one, s[1]);
    var three := Advance(desk, two, s[2]);
    assert Steps(desk, one, s[1..]) == Steps(desk, two, s[2..]) == Steps(desk, three, s[3..]) == Steps(desk, Advance(desk, three, s[3]), []);
  }

  // ----- with a constant offset

  predicate Before(a: Local, b: Local) {
    a.day < b.day || (a.day == b.day && a.minute < b.minute)
  }

  ghost predicate Increasing(slots: seq<Slot>) {
    forall i, j :: 0 <= i < j < |slots| ==> slots[i].startsAt < slots[j].startsAt
  }

  ghost predicate InOrder(points: seq<Local>) {
    forall i, j :: 0 <= i < j < |points| ==> Before(points[i], points[j])
  }

  lemma {:induction false} DayGridInOrder(desk: Desk, officer: Officer, day: int, minute: int)
    requires IsPolicy(desk)
    ensures InOrder(DayGrid(desk, officer, day, minute))
    decreases officer.endHour * 60 - minute
  {
    if minute + desk.slotMinutes <= officer.endHour * 60 {
      var rest := DayGrid(desk, officer, day, minute + desk.slotMinutes + desk.bufferMinutes);
      DayGridInOrder(desk, officer, day, minute + desk.slotMinutes + desk.bufferMinutes);
      forall i | 0 <= i < |rest| ensures Before(Local(day, minute), rest[i]) {
        DayGridBounds(desk, officer, day, minute + desk.slotMinutes + desk.bufferMinutes, rest[i]);
      }
    }
  }

  lemma DayGridBounds(desk: Desk, officer: Officer, day: int, minute: int, p: Local)
    requires IsPolicy(desk) && p in DayGrid(desk, officer, day, minute)
    ensures p.day == day && p.minute >= minute
  {
    DayGridExactly(desk, officer, day, minute, p);
    var n: nat :| p.minute == StepAt(desk, minute, n);
    StepsAscend(desk, minute, n);
  }

  lemma {:induction false} GridInOrder(desk: Desk, officer: Officer, day: int, days: nat)
    requires IsPolicy(desk)
    ensures InOrder(Grid(desk, officer, day, days))
    decreases days
  {
    if days > 0 {
      var today, rest := DayGrid(desk, officer, day, officer.startHour * 60), Grid(desk, officer, day + 1, days - 1);
      DayGridInOrder(desk, officer, day, officer.startHour * 60);
      GridInOrder(desk, officer, day + 1, days - 1);
      forall i, j | 0 <= i < |today| && 0 <= j < |rest| ensures Before(today[i], rest[j]) {
        DayGridBounds(desk, officer, day, officer.startHour * 60, today[i]);
        GridBounds(desk, officer, day + 1, days - 1, rest[j]);
      }
      BothInOrder(today, rest);
    }
  }

  lemma BothInOrder(a: seq<Local>, b: seq<Local>)
    requires InOrder(a) && InOrder(b) && forall i, j :: 0 <= i < |a| && 0 <= j < |b| ==> Before(a[i], b[j])
    ensures InOrder(a + b) && InOrder([] + b)
  {
    assert [] + b == b;
  }

  function At(offset: int, q: Request, p: Local): Option<Slot> {
    var t := Utc(p) - offset * MINUTE;
    if t < q.now + q.desk.leadMinutes * MINUTE || Busy(q.desk, q.officer, q.appointments, t) then None
    else Some(Slot(t, t + q.desk.slotMinutes * MINUTE))
  }

  // With a constant offset a grid point of a day's 24 hours is offered exactly when it is late enough and
  // free, at its own moment.
  lemma ConstantOffsetOffer(offset: int, q: Request, p: Local)
    requires q.desk.zone == Some(ShownAt(_ => offset)) && IsTimeOfDay(p)
    ensures Offer(q, p) == At(offset, q, p)
  {
    ConstantOffset(offset, p);
  }

  lemma {:induction false} ConstantOffsetInOrder(offset: int, q: Request, points: seq<Local>)
    requires q.desk.zone == Some(ShownAt(_ => offset))
    requires InOrder(points) && forall i :: 0 <= i < |points| ==> IsTimeOfDay(points[i])
    ensures Increasing(Offers(q, points))
  {
    if points != [] {
      var first, rest := points[0], points[1..];
      assert forall i :: 0 <= i < |rest| ==> rest[i] == points[i + 1];
      ConstantOffsetInOrder(offset, q, rest);
      OffersAre(q, rest);
      ConstantOffsetOffer(offset, q, first);
      forall s | s in Offers(q, rest)
        ensures Utc(first) - offset * MINUTE < s.startsAt
      {
        var p :| p in rest && Offer(q, p) == Some(s);
        assert Before(first, p);
        ConstantOffsetOffer(offset, q, p);
        UtcIsInjective(first, p);
      }
    }
  }

  // The slots come out in strictly increasing order and are exactly the admissible grid points, so the
  // list is exactly the first of them.
  lemma ConstantOffsetSlots(offset: int, q: Request)
    requires IsPolicy(q.desk) && q.desk.zone == Some(ShownAt(_ => offset))
    requires 0 <= q.officer.startHour && q.officer.endHour <= 24
    ensures Increasing(AllSlots(q))
    ensures forall s :: s in AllSlots(q) <==>
      exists p :: p in Grid(q.desk, q.officer, Today(q), Days(q))
        && At(offset, q, p) == Some(s)
  {
    var grid := Grid(q.desk, q.officer, Today(q), Days(q));
    GridInOrder(q.desk, q.officer, Today(q), Days(q));
    forall i | 0 <= i < |grid| ensures IsTimeOfDay(grid[i]) {
      GridBounds(q.desk, q.officer, Today(q), Days(q), grid[i]);
    }
    ConstantOffsetInOrder(offset, q, grid);
    OffersAre(q, grid);
    forall p | p in grid
      ensures Offer(q, p) == At(offset, q, p)
    {
      ConstantOffsetOffer(offset, q, p);
    }
  }
}
