/** The contact gate (policyGate.ts). Instants are milliseconds since the epoch. */
module PolicyGate {
  import opened Common
  import opened LeadStates

  const MINUTE := 60_000
  const DAY := 86_400_000

  datatype LocalTime = LocalTime(hour: int, minute: int, weekday: int)

  // UNKNOWN, or a zone as the host's tables present it; a name they cannot resolve shows nothing.
  datatype Zone = UNKNOWN | Named(local: int -> Option<LocalTime>)

  datatype Consent = Consent(scope: Channel, granted: bool)
  datatype Suppression = Suppression(global: bool, channel: Option<Channel>, expiresAt: Option<int>)
  datatype Overrides = Overrides(ignoreQuietHours: bool, ignoreAttemptCaps: bool, ignoreMinSpacing: bool)
  datatype Config = Config(dailyAttemptCap: Option<int>, minSpacingMs: Option<int>, quietHoursStart: Option<int>, quietHoursEnd: Option<int>)

  datatype GateInput = GateInput(
    now: int, channel: Channel, zone: Zone, stateCode: Option<string>,
    consents: seq<Consent>, suppressions: seq<Suppression>,
    attemptsToday: int, attemptsTotal: int, lastAttemptAt: Option<int>,
    leadState: LeadState, killSwitchOn: bool, maxAttempts: int,
    isManualOfficerAction: bool, config: Config, overrides: Overrides)

  datatype Rule =
    | KILL_SWITCH | SUPPRESSED_GLOBAL | SUPPRESSED_CHANNEL | NO_CONSENT | CONSENT_REVOKED | LEAD_TERMINAL
    | OFFICER_OWNED | ATTEMPT_CAP_TOTAL | UNKNOWN_TIMEZONE | QUIET_HOURS_LOCAL | WEEKEND_RULE
    | ATTEMPT_CAP_DAILY | MIN_SPACING

  datatype Decision = ALLOW | DENY(rule: Rule) | DEFER(why: Rule, nextPermittedAt: int)

  datatype Hours = Hours(start: int, end: int)

  const NO_OVERRIDES := Overrides(false, false, false)

  // Overrides are honoured for manual actions only.
  function Effective(i: GateInput): Overrides {
    if i.isManualOfficerAction then i.overrides else NO_OVERRIDES
  }

  function StateHours(i: GateInput): Hours {
    var c := i.config;
    var usual := if c.quietHoursStart.Some? && c.quietHoursEnd.Some? then Hours(c.quietHoursStart.value, c.quietHoursEnd.value) else Hours(8, 21);
    if i.stateCode == Some("FL") then Hours(9, 20)
    else if i.stateCode == Some("WA") || i.stateCode == Some("OR") then Hours(9, 21)
    else usual
  }

  function DailyCap(i: GateInput): int {
    if i.config.dailyAttemptCap.Some? then i.config.dailyAttemptCap.value else 3
  }

  function MinSpacing(i: GateInput): int {
    if i.config.minSpacingMs.Some? then i.config.minSpacingMs.value else 4 * 60 * MINUTE
  }

  function FixedZone(offset: int): int -> Option<LocalTime> {
    t => Some(LocalAt(t + offset))
  }

  // The wall clock that shows the given milliseconds as if they were UTC; day zero was a Thursday.
  function LocalAt(wall: int): LocalTime {
    LocalTime(wall / (60 * MINUTE) % 24, wall / MINUTE % 60, (wall / DAY + 4) % 7)
  }

  // The host knows UTC, which an unknown zone falls back to.
  function LocalNow(i: GateInput): Option<LocalTime> {
    if i.zone == UNKNOWN then Some(LocalAt(i.now)) else i.zone.local(i.now)
  }

  function NextWindowOpen(now: int, local: Option<LocalTime>, startHour: int): int {
    match local
    case None => now + 12 * 60 * MINUTE
    case Some(t) =>
      var minutes := if t.hour < startHour then startHour * 60 - (t.hour * 60 + t.minute)
                     else (24 - t.hour) * 60 - t.minute + startHour * 60;
      now + minutes * MINUTE
  }

  predicate Active(s: Suppression, now: int) {
    s.expiresAt == None || s.expiresAt.value > now
  }

  function FirstConsent(consents: seq<Consent>, scope: Channel): Option<Consent> {
    if consents == [] then None
    else if consents[0].scope == scope then Some(consents[0])
    else FirstConsent(consents[1..], scope)
  }

  predicate OutsideHours(i: GateInput, t: LocalTime) {
    var now := t.hour * 60 + t.minute;
    now < StateHours(i).start * 60 || now >= StateHours(i).end * 60
  }

  function Evaluate(i: GateInput): Decision {
    var o := Effective(i);
    var consent := FirstConsent(i.consents, i.channel);
    if i.killSwitchOn then DENY(KILL_SWITCH)
    else if exists s :: s in i.suppressions && Active(s, i.now) && s.global then DENY(SUPPRESSED_GLOBAL)
    else if exists s :: s in i.suppressions && Active(s, i.now) && !s.global && s.channel == Some(i.channel) then DENY(SUPPRESSED_CHANNEL)
    else if consent == None then DENY(NO_CONSENT)
    else if !consent.value.granted then DENY(CONSENT_REVOKED)
    else if i.leadState in TERMINAL_STATES then DENY(LEAD_TERMINAL)
    else if i.leadState in {ASSIGNED, ACKNOWLEDGED} && !i.isManualOfficerAction then DENY(OFFICER_OWNED)
    else if i.attemptsTotal >= i.maxAttempts then DENY(ATTEMPT_CAP_TOTAL)
    else if i.zone == UNKNOWN && i.channel != EMAIL then
      var noon := i.now / DAY * DAY + DAY / 2;
      DEFER(UNKNOWN_TIMEZONE, if noon <= i.now then noon + DAY else noon)
    else
      var local := LocalNow(i);
      var start := StateHours(i).start;
      var guarded := i.channel != EMAIL && local.Some? && !o.ignoreQuietHours;
      if guarded && OutsideHours(i, local.value) then DEFER(QUIET_HOURS_LOCAL, NextWindowOpen(i.now, local, start))
      else if guarded && local.value.weekday == 0 then DEFER(WEEKEND_RULE, NextWindowOpen(i.now, local, start) + DAY)
      else if i.attemptsToday >= DailyCap(i) && !o.ignoreAttemptCaps then DEFER(ATTEMPT_CAP_DAILY, NextWindowOpen(i.now, local, start) + DAY)
      else if i.lastAttemptAt.Some? && !o.ignoreMinSpacing && i.now - i.lastAttemptAt.value < MinSpacing(i) then
        DEFER(MIN_SPACING, i.lastAttemptAt.value + MinSpacing(i))
      else ALLOW
  }

  // ----- who may be contacted, told without the gate's own functions

  // The first consent given for a channel, by its place in the record.
  ghost predicate IsFirstOf(consents: seq<Consent>, scope: Channel, n: nat) {
    n < |consents| && consents[n].scope == scope && forall m :: 0 <= m < n ==> consents[m].scope != scope
  }

  ghost predicate HasConsent(i: GateInput) {
    exists n: nat :: IsFirstOf(i.consents, i.channel, n) && i.consents[n].granted
  }

  // A suppression that has not run out, for every channel or for this one.
  predicate IsSuppressed(i: GateInput) {
    exists s :: s in i.suppressions && (s.expiresAt.Some? ==> s.expiresAt.value > i.now) && (s.global || s.channel == Some(i.channel))
  }

  // The bars that no waiting removes, except that a suppression may run out.
  ghost predicate IsBarred(i: GateInput) {
    || i.killSwitchOn
    || IsSuppressed(i)
    || !HasConsent(i)
    || i.leadState in {SUPPRESSED, CLOSED_WON, CLOSED_LOST}
    || (i.leadState in {ASSIGNED, ACKNOWLEDGED} && !i.isManualOfficerAction)
    || i.attemptsTotal >= i.maxAttempts
  }

  lemma {:induction false} FirstConsentIs(consents: seq<Consent>, scope: Channel)
    ensures match FirstConsent(consents, scope)
            case None => forall n :: 0 <= n < |consents| ==> consents[n].scope != scope
            case Some(c) => exists n: nat :: IsFirstOf(consents, scope, n) && consents[n] == c
  {
    if consents != [] {
      if consents[0].scope == scope {
        assert IsFirstOf(consents, scope, 0);
      } else {
        FirstConsentIs(consents[1..], scope);
        FirstInTail(consents, scope);
      }
    }
  }

  lemma FirstInTail(consents: seq<Consent>, scope: Channel)
    requires consents != [] && consents[0].scope != scope
    ensures forall n: nat :: IsFirstOf(consents[1..], scope, n) ==> IsFirstOf(consents, scope, n + 1)
    ensures (forall n :: 0 <= n < |consents[1..]| ==> consents[1..][n].scope != scope) ==>
      forall n :: 0 <= n < |consents| ==> consents[n].scope != scope
  {
    assert forall n :: 0 < n < |consents| ==> consents[n] == consents[1..][n - 1];
  }

  lemma OneFirst(consents: seq<Consent>, scope: Channel)
    ensures forall n: nat, m: nat :: IsFirstOf(consents, scope, n) && IsFirstOf(consents, scope, m) ==> n == m
  {
  }

  lemma ConsentExactly(i: GateInput)
    ensures HasConsent(i) <==> FirstConsent(i.consents, i.channel).Some? && FirstConsent(i.consents, i.channel).value.granted
  {
    FirstConsentIs(i.consents, i.channel);
    OneFirst(i.consents, i.channel);
  }

  // The answer is DENY exactly for a contact that is barred.
  lemma DenyExactly(i: GateInput)
    ensures Evaluate(i).DENY? <==> IsBarred(i)
  {
    ConsentExactly(i);
    assert IsSuppressed(i) <==>
      || (exists s :: s in i.suppressions && Active(s, i.now) && s.global)
      || (exists s :: s in i.suppressions && Active(s, i.now) && !s.global && s.channel == Some(i.channel));
  }

  // The hours of the state, or the configured ones, or 8 to 21.
  function HoursOf(i: GateInput): (int, int) {
    match i.stateCode
    case Some("FL") => (9, 20)
    case Some("WA") => (9, 21)
    case Some("OR") => (9, 21)
    case _ =>
      if i.config.quietHoursStart.Some? && i.config.quietHoursEnd.Some? then (i.config.quietHoursStart.value, i.config.quietHoursEnd.value)
      else (8, 21)
  }

  // What has to hold at this moment: a known zone whose clocks, if they can be read, show working hours
  // of a weekday; fewer attempts today than allowed; and four hours, or as configured, since the last one.
  predicate IsTimely(i: GateInput) {
    var waives := i.isManualOfficerAction;
    && (i.channel == EMAIL
        || (&& i.zone.Named?
            && ((waives && i.overrides.ignoreQuietHours)
                || (match i.zone.local(i.now)
                    case None => true
                    case Some(t) =>
                      HoursOf(i).0 * 60 <= t.hour * 60 + t.minute < HoursOf(i).1 * 60 && t.weekday != 0))))
    && ((waives && i.overrides.ignoreAttemptCaps)
        || i.attemptsToday < (if i.config.dailyAttemptCap.Some? then i.config.dailyAttemptCap.value else 3))
    && ((waives && i.overrides.ignoreMinSpacing)
        || (match i.lastAttemptAt
            case None => true
            case Some(t) => i.now - t >= if i.config.minSpacingMs.Some? then i.config.minSpacingMs.value else 14_400_000))
  }

  // And it is ALLOW exactly for one that is neither barred nor untimely.
  lemma AllowExactly(i: GateInput)
    ensures Evaluate(i) == ALLOW <==> !IsBarred(i) && IsTimely(i)
  {
    DenyExactly(i);
    assert HoursOf(i) == (StateHours(i).start, StateHours(i).end);
  }

  // Which reason a barred contact is given: the first that applies.
  lemma DenyRuleExactly(i: GateInput)
    ensures var d, open := Evaluate(i), !i.killSwitchOn && !IsSuppressed(i);
            var everywhere := exists s :: s in i.suppressions && (s.expiresAt.Some? ==> s.expiresAt.value > i.now) && s.global;
            var closed := i.leadState in {SUPPRESSED, CLOSED_WON, CLOSED_LOST};
            var owned := i.leadState in {ASSIGNED, ACKNOWLEDGED} && !i.isManualOfficerAction;
            var asked := exists c :: c in i.consents && c.scope == i.channel;
      && (d == DENY(KILL_SWITCH) <==> i.killSwitchOn)
      && (d == DENY(SUPPRESSED_GLOBAL) <==> !i.killSwitchOn && everywhere)
      && (d == DENY(SUPPRESSED_CHANNEL) <==> !i.killSwitchOn && !everywhere && IsSuppressed(i))
      && (d == DENY(NO_CONSENT) <==> open && !asked)
      && (d == DENY(CONSENT_REVOKED) <==> open && asked && !HasConsent(i))
      && (d == DENY(LEAD_TERMINAL) <==> open && HasConsent(i) && closed)
      && (d == DENY(OFFICER_OWNED) <==> open && HasConsent(i) && owned)
      && (d == DENY(ATTEMPT_CAP_TOTAL) <==> open && HasConsent(i) && !closed && !owned && i.attemptsTotal >= i.maxAttempts)
  {
    ConsentExactly(i);
    AskedExactly(i.consents, i.channel);
    assert forall s :: Active(s, i.now) <==> (s.expiresAt.Some? ==> s.expiresAt.value > i.now);
  }

  lemma AskedExactly(consents: seq<Consent>, scope: Channel)
    ensures FirstConsent(consents, scope).Some? <==> exists c :: c in consents && c.scope == scope
  {
    FirstConsentIs(consents, scope);
    if FirstConsent(consents, scope).Some? {
      var n: nat :| IsFirstOf(consents, scope, n);
      assert consents[n] in consents;
    }
  }

  // The clocks' time, if they can be read, is not working hours.
  ghost predicate IsOutside(i: GateInput, local: Option<LocalTime>) {
    local.Some? && !(HoursOf(i).0 * 60 <= local.value.hour * 60 + local.value.minute < HoursOf(i).1 * 60)
  }

  // Without a zone a call or text waits for the next noon in UTC.
  lemma NoonExactly(i: GateInput)
    requires !IsBarred(i) && i.channel != EMAIL && i.zone == UNKNOWN
    ensures var d := Evaluate(i);
            d.DEFER? && d.why == UNKNOWN_TIMEZONE && i.now < d.nextPermittedAt <= i.now + 86_400_000 && d.nextPermittedAt % 86_400_000 == 43_200_000
  {
    DenyExactly(i);
    var noon := i.now / DAY * DAY + DAY / 2;
    assert noon % DAY == DAY / 2 && (noon + DAY) % DAY == DAY / 2;
    assert Evaluate(i) == DEFER(UNKNOWN_TIMEZONE, if noon <= i.now then noon + DAY else noon);
  }

  // The answer to any other untimely contact: the first reason that applies, and an instant. Outside hours it
  // is the next opening; on a Sunday, or with the day's attempts used up, the opening a day after that; and
  // else when the last attempt is long enough ago.
  lemma DeferExactly(i: GateInput)
    requires !IsBarred(i) && !IsTimely(i) && (i.channel == EMAIL || i.zone.Named?)
    ensures Evaluate(i).DEFER?
    ensures var d := Evaluate(i);
            var local := if i.zone == UNKNOWN then Some(LocalAt(i.now)) else i.zone.local(i.now);
            var watched := i.channel != EMAIL && !(i.isManualOfficerAction && i.overrides.ignoreQuietHours);
            var used := !(i.isManualOfficerAction && i.overrides.ignoreAttemptCaps)
                        && i.attemptsToday >= if i.config.dailyAttemptCap.Some? then i.config.dailyAttemptCap.value else 3;
            var open := NextWindowOpen(i.now, local, HoursOf(i).0);
      && (watched && IsOutside(i, local) ==> d == DEFER(QUIET_HOURS_LOCAL, open))
      && (watched && local.Some? && !IsOutside(i, local) && local.value.weekday == 0 ==> d == DEFER(WEEKEND_RULE, open + 86_400_000))
      && ((watched && local.Some? ==> !IsOutside(i, local) && local.value.weekday != 0) ==>
            d == if used then DEFER(ATTEMPT_CAP_DAILY, open + 86_400_000)
                 else DEFER(MIN_SPACING, i.lastAttemptAt.value + if i.config.minSpacingMs.Some? then i.config.minSpacingMs.value else 14_400_000))
  {
    DenyExactly(i);
    AllowExactly(i);
    assert HoursOf(i) == (StateHours(i).start, StateHours(i).end);
  }

  // Where the clocks cannot be read the opening is taken to be half a day away.
  lemma OpensUnread(now: int, start: int)
    ensures NextWindowOpen(now, None, start) == now + 43_200_000
  {
  }

  // ----- safety

  // An unattended or unwaived ALLOW by phone or text is inside the local window and not on a Sunday,
  // and a borrower whose zone is unknown is never called or texted.
  lemma AllowIsInsideHours(i: GateInput)
    requires Evaluate(i) == ALLOW && i.channel != EMAIL && !Effective(i).ignoreQuietHours
    ensures i.zone != UNKNOWN
    ensures var local := i.zone.local(i.now);
            local.Some? ==>
              && StateHours(i).start * 60 <= local.value.hour * 60 + local.value.minute < StateHours(i).end * 60
              && local.value.weekday != 0
  {
  }

  // No override, channel or officer relaxes the bars that come first.
  lemma DenyIsUnconditional(i: GateInput, overrides: Overrides)
    requires i.leadState in TERMINAL_STATES || i.killSwitchOn
          || (exists s :: s in i.suppressions && Active(s, i.now) && s.global)
    ensures Evaluate(i.(overrides := overrides)).DENY?
    ensures Evaluate(i.(overrides := overrides, isManualOfficerAction := true)).DENY?
  {
  }

  // Waiting never creates a reason to deny: suppressions can only expire.
  lemma DenyOnlyLifts(i: GateInput, later: int)
    requires !Evaluate(i).DENY? && later >= i.now
    ensures !Evaluate(i.(now := later)).DENY?
  {
  }

  // ----- progress: asking again at each instant the gate names

  // A call or text in a zone with a fixed offset, under the daily cap, to someone contact is not barred to.
  ghost predicate Waiting(i: GateInput, offset: int) {
    && i.channel != EMAIL
    && i.zone.Named? && i.zone.local(i.now) == Some(LocalAt(i.now + offset))
    && !IsBarred(i)
    && (i.attemptsToday < DailyCap(i) || Effective(i).ignoreAttemptCaps)
    && 0 <= StateHours(i).start < StateHours(i).end <= 24
  }

  function Late(i: GateInput, offset: int): bool {
    !Effective(i).ignoreQuietHours && OutsideHours(i, LocalAt(i.now + offset))
  }

  function Sunday(i: GateInput, offset: int): bool {
    !Effective(i).ignoreQuietHours && LocalAt(i.now + offset).weekday == 0
  }

  function TooSoon(i: GateInput): bool {
    i.lastAttemptAt.Some? && !Effective(i).ignoreMinSpacing && i.now - i.lastAttemptAt.value < MinSpacing(i)
  }

  // How many answers can still be DEFER.
  function Rank(i: GateInput, offset: int): (r: nat)
    ensures r <= 5
  {
    (if TooSoon(i) then 3 else 0) + (if Late(i, offset) then 2 else if Sunday(i, offset) then 1 else 0)
  }

  lemma WindowOpens(now: int, offset: int, start: int)
    requires 0 <= start < 24
    ensures var next := NextWindowOpen(now, Some(LocalAt(now + offset)), start);
      && now < next <= now + DAY
      && LocalAt(next + offset).hour == start && LocalAt(next + offset).minute == 0
      && (LocalAt(now + offset).hour >= start ==> LocalAt(next + offset).weekday == (LocalAt(now + offset).weekday + 1) % 7)
  {
    var wall := now + offset;
    var m, day := wall / MINUTE, wall / DAY;
    MinutesOfDay(wall);
    var next := NextWindowOpen(now, Some(LocalAt(wall)), start);
    var k := if LocalAt(wall).hour < start then 0 else 1;
    var m' := (day + k) * 1440 + start * 60;
    assert next + offset == wall + (m' - m) * MINUTE;
    MinutesAfter(wall, m' - m);
    MinutesOfDay(next + offset);
    ClockAt(m', day + k, start);
    WeekdayAfter(day);
  }

  lemma MinutesAfter(wall: int, minutes: int)
    ensures (wall + minutes * MINUTE) / MINUTE == wall / MINUTE + minutes
  {
  }

  lemma ClockAt(m: int, day: int, hour: int)
    requires m == day * 1440 + hour * 60 && 0 <= hour < 24
    ensures m / 1440 == day && m / 60 % 24 == hour && m % 60 == 0
  {
    assert m / 60 == day * 24 + hour;
  }

  // The wall clock in whole minutes.
  lemma MinutesOfDay(wall: int)
    ensures var t, m := LocalAt(wall), wall / MINUTE;
      && 0 <= t.hour < 24 && 0 <= t.minute < 60
      && m == wall / DAY * 1440 + t.hour * 60 + t.minute
      && wall / DAY == m / 1440
  {
    var m := wall / MINUTE;
    assert wall / (60 * MINUTE) == m / 60;
    assert wall / DAY == m / 1440;
    assert m / 60 / 24 == m / 1440;
  }

  lemma DayLater(wall: int)
    ensures LocalAt(wall + DAY) == LocalAt(wall).(weekday := (LocalAt(wall).weekday + 1) % 7)
  {
    var h, m, d := wall / (60 * MINUTE), wall / MINUTE, wall / DAY;
    WholeUnits(wall);
    assert (h + 24) % 24 == h % 24 && (m + 1440) % 60 == m % 60;
    WeekdayAfter(d);
  }

  lemma WholeUnits(wall: int)
    ensures (wall + DAY) / (60 * MINUTE) == wall / (60 * MINUTE) + 24
    ensures (wall + DAY) / MINUTE == wall / MINUTE + 1440
    ensures (wall + DAY) / DAY == wall / DAY + 1
  {
  }

  lemma WeekdayAfter(day: int)
    ensures (day + 1 + 4) % 7 == ((day + 4) % 7 + 1) % 7
  {
  }

  // Which of the four answers a waiting contact gets.
  lemma AnswerIs(i: GateInput, offset: int)
    requires Waiting(i, offset)
    ensures var open := NextWindowOpen(i.now, Some(LocalAt(i.now + offset)), StateHours(i).start);
            Evaluate(i) == if Late(i, offset) then DEFER(QUIET_HOURS_LOCAL, open)
                           else if Sunday(i, offset) then DEFER(WEEKEND_RULE, open + DAY)
                           else if TooSoon(i) then DEFER(MIN_SPACING, i.lastAttemptAt.value + MinSpacing(i))
                           else ALLOW
  {
    DenyExactly(i);
  }

  // At the start of a working window it is not late.
  lemma NotLateAtOpening(i: GateInput, offset: int)
    requires 0 <= StateHours(i).start < StateHours(i).end <= 24
    ensures var open := NextWindowOpen(i.now, Some(LocalAt(i.now + offset)), StateHours(i).start);
            i.now < open && !Late(i.(now := open), offset)
  {
    MinutesOfDay(i.now + offset);
    WindowOpens(i.now, offset, StateHours(i).start);
  }

  // A day after that it is not late either, and for a Sunday's own opening it is a Monday.
  lemma NotLateADayLater(i: GateInput, offset: int)
    requires 0 <= StateHours(i).start < StateHours(i).end <= 24
    ensures var open := NextWindowOpen(i.now, Some(LocalAt(i.now + offset)), StateHours(i).start);
      && !Late(i.(now := open + DAY), offset)
      && (!Late(i, offset) && Sunday(i, offset) ==> !Sunday(i.(now := open + DAY), offset))
  {
    MinutesOfDay(i.now + offset);
    WindowOpens(i.now, offset, StateHours(i).start);
    DayLater(NextWindowOpen(i.now, Some(LocalAt(i.now + offset)), StateHours(i).start) + offset);
  }

  lemma DeferAdvances(i: GateInput, offset: int)
    requires Waiting(i, offset)
    ensures Rank(i, offset) == 0 ==> Evaluate(i) == ALLOW
    ensures Rank(i, offset) > 0 ==> Evaluate(i).DEFER? && Evaluate(i).nextPermittedAt > i.now
    ensures Rank(i, offset) > 0 ==> Rank(i.(now := Evaluate(i).nextPermittedAt), offset) < Rank(i, offset)
  {
    AnswerIs(i, offset);
    NotLateAtOpening(i, offset);
    NotLateADayLater(i, offset);
  }

  lemma StillWaiting(i: GateInput, offset: int)
    requires Waiting(i, offset) && i.zone == Named(FixedZone(offset))
    requires Evaluate(i).DEFER? && Evaluate(i).nextPermittedAt > i.now
    ensures Waiting(i.(now := Evaluate(i).nextPermittedAt), offset)
  {
    DenyExactly(i);
    DenyExactly(i.(now := Evaluate(i).nextPermittedAt));
    DenyOnlyLifts(i, Evaluate(i).nextPermittedAt);
  }

  function Later(i: GateInput): GateInput {
    if Evaluate(i).DEFER? then i.(now := Evaluate(i).nextPermittedAt) else i
  }

  // n answers are DEFER, each naming a strictly later instant, and the next one is ALLOW.
  ghost predicate AllowedAfter(i: GateInput, n: nat)
    decreases n
  {
    if n == 0 then Evaluate(i) == ALLOW
    else Evaluate(i).DEFER? && Later(i).now > i.now && AllowedAfter(Later(i), n - 1)
  }

  lemma OneDefer(i: GateInput, offset: int)
    requires Waiting(i, offset) && i.zone == Named(FixedZone(offset)) && Rank(i, offset) > 0
    ensures Evaluate(i).DEFER? && Later(i).now > i.now && Later(i).zone == i.zone
    ensures Waiting(Later(i), offset) && Rank(Later(i), offset) < Rank(i, offset)
  {
    DeferAdvances(i, offset);
    StillWaiting(i, offset);
  }

  // Asking again at each instant the gate names: from any moment at most five answers are DEFER, and then
  // the contact is allowed.
  lemma AllowedAfterAtMostFiveDefers(i: GateInput, offset: int)
    requires Waiting(i, offset) && i.zone == Named(FixedZone(offset))
    ensures exists n: nat :: n <= 5 && AllowedAfter(i, n)
  {
    var n := AllowedWithin(i, offset);
  }

  lemma {:induction false} AllowedWithin(i: GateInput, offset: int) returns (n: nat)
    requires Waiting(i, offset) && i.zone == Named(FixedZone(offset))
    ensures n <= Rank(i, offset) && AllowedAfter(i, n)
    decreases Rank(i, offset)
  {
    if Rank(i, offset) == 0 {
      DeferAdvances(i, offset);
      n := 0;
    } else {
      OneDefer(i, offset);
      n := AllowedWithin(Later(i), offset);
      n := n + 1;
    }
  }
}
