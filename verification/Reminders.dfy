/** Reminders: when one is due, when it fires next, and what firing does to its stored state.
    Local time is Unix time plus a constant offset, a whole number of minutes. */
module Reminders {
  import opened Text

  const DAY := 86400

  datatype RawSchedule = RawSchedule(kind: string, weekdays: seq<int>, hour: int, minute: int, offset: int,
                                     remainingRuns: Option<int>)

  /** A schedule after parsing: a time of day, an offset of whole minutes, at least one run if limited. */
  type Schedule = s: RawSchedule |
    0 <= s.hour < 24 && 0 <= s.minute < 60 && s.offset % 60 == 0 &&
    (s.remainingRuns.Some? ==> s.remainingRuns.value >= 1)
    witness RawSchedule("daily", [], 9, 0, 0, None)

  datatype Reminder = Reminder(enabled: bool, schedule: Schedule)

  /** The stored record of a task; reminders and jobs each use their own part of it. */
  datatype TaskState = TaskState(lastFired: Option<int>, remaining: Option<int>, enabled: Option<bool>,
                                 nextFire: Option<int>, lastStarted: Option<int>, lastRunAt: int)

  const NO_STATE := TaskState(None, None, None, None, None, 0)

  // ---------- Calendar ----------

  function LocalDay(s: Schedule, ts: int): int { (ts + s.offset) / DAY }

  function SecondOfDay(s: Schedule, ts: int): int { (ts + s.offset) % DAY }

  /** The weekday of a day since 1 January 1970; 0 is Monday. */
  function WeekdayOf(day: int): int { (day + 3) % 7 }

  /** 1 January 1970 was a Thursday, and the weekdays follow one another. */
  lemma WeekdayMeaning(day: int)
    ensures WeekdayOf(0) == 3 && 0 <= WeekdayOf(day) <= 6
    ensures WeekdayOf(day + 1) == if WeekdayOf(day) == 6 then 0 else WeekdayOf(day) + 1
  {
  }

  function Slot(ts: int): int { ts - ts % 60 }

  predicate IsWeekly(s: Schedule) { Lower(Strip(s.kind)) == "weekly" }

  predicate IsWeekdayAllowed(s: Schedule, weekday: int) {
    IsWeekly(s) ==> 0 <= weekday <= 6 && weekday in s.weekdays
  }

  /** The due test: local hour, local minute and weekday all fit. */
  predicate Matches(s: Schedule, ts: int) {
    && SecondOfDay(s, ts) / 3600 == s.hour
    && SecondOfDay(s, ts) % 3600 / 60 == s.minute
    && IsWeekdayAllowed(s, WeekdayOf(LocalDay(s, ts)))
  }

  /** The instant at which a local day shows the scheduled time. */
  function Instant(s: Schedule, day: int): int {
    day * DAY + s.hour * 3600 + s.minute * 60 - s.offset
  }

  lemma InstantFacts(s: Schedule, day: int)
    ensures Instant(s, day) % 60 == 0 && LocalDay(s, Instant(s, day)) == day
    ensures Matches(s, Instant(s, day)) <==> IsWeekdayAllowed(s, WeekdayOf(day))
  {
    var second := s.hour * 3600 + s.minute * 60;
    assert Instant(s, day) + s.offset == day * DAY + second;
    assert 0 <= second < DAY;
    assert LocalDay(s, Instant(s, day)) == day && SecondOfDay(s, Instant(s, day)) == second;
    assert second / 3600 == s.hour && second % 3600 / 60 == s.minute;
  }

  /** A time is due exactly when its minute starts at the scheduled instant of its day and, for a weekly
      schedule, that day is one of its weekdays. */
  lemma MatchesMeaning(s: Schedule, ts: int)
    ensures Matches(s, ts) <==>
      Slot(ts) == Instant(s, LocalDay(s, ts)) && (Key(s.kind) == "weekly" ==> WeekdayOf(LocalDay(s, ts)) in s.weekdays)
    ensures LocalDay(s, Slot(ts)) == LocalDay(s, ts) && Matches(s, Slot(ts)) == Matches(s, ts)
  {
    SlotInDay(ts, s.offset);
    TimeOfDay(SecondOfDay(s, ts), s.hour, s.minute);
    TimeOfDay(SecondOfDay(s, Slot(ts)), s.hour, s.minute);
  }

  /** A minute lies within one local day, as the offset is a whole number of minutes. */
  lemma SlotInDay(ts: int, offset: int)
    requires offset % 60 == 0
    ensures var t, u := ts + offset, Slot(ts) + offset;
      u / DAY == t / DAY && u % DAY == t % DAY - t % DAY % 60 && u % DAY % 60 == 0
  {
    var t := ts + offset;
    SameSecond(ts, offset);
    SecondOfMinute(t);
    assert Slot(ts) + offset == t - t % 60;
    DayOf(t / DAY, t % DAY - t % DAY % 60);
    WholeMinutes(t % DAY);
  }

  lemma SameSecond(ts: int, offset: int)
    requires offset % 60 == 0
    ensures (ts + offset) % 60 == ts % 60
  {
  }

  lemma SecondOfMinute(t: int)
    ensures t % DAY % 60 == t % 60 && t == t / DAY * DAY + t % DAY && 0 <= t % DAY < DAY
  {
    SameMinutePart(t % DAY, t / DAY * 1440);
  }

  lemma SameMinutePart(second: int, minutes: int)
    ensures (second + 60 * minutes) % 60 == second % 60
  {
  }

  lemma DayOf(day: int, second: int)
    requires 0 <= second < DAY
    ensures (day * DAY + second) / DAY == day && (day * DAY + second) % DAY == second
  {
  }

  lemma WholeMinutes(second: int)
    ensures (second - second % 60) % 60 == 0
  {
  }

  lemma TimeOfDay(second: int, hour: int, minute: int)
    requires 0 <= second && 0 <= minute < 60
    ensures second / 3600 == hour && second % 3600 / 60 == minute <==>
      second - second % 60 == hour * 3600 + minute * 60
  {
  }

  // ---------- The next firing ----------

  predicate IsCandidate(s: Schedule, now: int, day: int) {
    Instant(s, day) > now && (IsWeekly(s) ==> WeekdayOf(day) in s.weekdays)
  }

  /** Scans at most days 0 to 14 after today, from this one on. */
  function Scan(s: Schedule, now: int, dayOffset: nat): Option<int>
    decreases 15 - dayOffset
  {
    var day := LocalDay(s, now) + dayOffset;
    if dayOffset > 14 then None
    else if IsCandidate(s, now, day) then Some(Instant(s, day))
    else Scan(s, now, dayOffset + 1)
  }

  function NextFire(s: Schedule, now: int): Option<int> { Scan(s, now, 0) }

  method BuildNextFireAt(s: Schedule, now: int) returns (nextFireAt: Option<int>)
    ensures nextFireAt == NextFire(s, now)
    ensures IsNextFire(s, now, nextFireAt)
  {
    nextFireAt := None;
    var maxDaysToScan := 14;
    var dayOffset := 0;
    while dayOffset <= maxDaysToScan
      invariant 0 <= dayOffset <= 15 && nextFireAt == None
      invariant Scan(s, now, dayOffset) == NextFire(s, now)
    {
      var day := LocalDay(s, now) + dayOffset;
      if IsCandidate(s, now, day) {
        nextFireAt := Some(Instant(s, day));
        break;
      }
      dayOffset := dayOffset + 1;
    }
    NextFireIsLeast(s, now);
  }

  ghost predicate HasNoDay(s: Schedule) {
    IsWeekly(s) && forall w :: 0 <= w <= 6 ==> w !in s.weekdays
  }

  /** The least minute start after now that the due test accepts; none only if no day ever fits. */
  ghost predicate IsNextFire(s: Schedule, now: int, next: Option<int>) {
    && (next.None? <==> HasNoDay(s))
    && (next.None? ==> forall u :: !Matches(s, u))
    && (next.Some? ==>
          && next.value > now && next.value % 60 == 0 && Matches(s, next.value)
          && (forall u :: now < u < next.value && u % 60 == 0 ==> !Matches(s, u))
          && next.value <= now + (if IsWeekly(s) then 7 * DAY else DAY))
  }

  /** No day from one up to another shows the scheduled time after now. */
  ghost predicate NoCandidate(s: Schedule, now: int, from: int, to: int) {
    forall day :: from <= day < to ==> !IsCandidate(s, now, day)
  }

  lemma {:induction false} ScanFinds(s: Schedule, now: int, dayOffset: nat) returns (day: int)
    requires dayOffset <= 15
    ensures var today := LocalDay(s, now);
      && today + dayOffset <= day <= today + 15 && NoCandidate(s, now, today + dayOffset, day)
      && (Scan(s, now, dayOffset).None? ==> day == today + 15)
      && (Scan(s, now, dayOffset).Some? ==>
            IsCandidate(s, now, day) && Scan(s, now, dayOffset) == Some(Instant(s, day)))
    decreases 15 - dayOffset
  {
    day := LocalDay(s, now) + dayOffset;
    if dayOffset <= 14 && !IsCandidate(s, now, day) {
      day := ScanFinds(s, now, dayOffset + 1);
    }
  }

  lemma WeekdayWithinWeek(s: Schedule, now: int, w: int) returns (day: int)
    requires 0 <= w <= 6
    ensures LocalDay(s, now) < day <= LocalDay(s, now) + 7 && WeekdayOf(day) == w && Instant(s, day) > now
  {
    var today := LocalDay(s, now);
    day := today + 1 + (w - WeekdayOf(today + 1)) % 7;
    LaterDayIsFuture(s, now, day);
  }

  lemma LaterDayIsFuture(s: Schedule, now: int, day: int)
    ensures day > LocalDay(s, now) ==> Instant(s, day) > now
    ensures Instant(s, day) > now ==> day >= LocalDay(s, now)
  {
    var today := LocalDay(s, now);
    assert today * DAY <= now + s.offset < today * DAY + DAY;
    assert day > today ==> day * DAY >= today * DAY + DAY;
    assert day < today ==> day * DAY + DAY <= today * DAY;
  }

  /** The 14-day scan is sufficient: it finds the least due minute, at most a day or a week ahead. */
  lemma NextFireIsLeast(s: Schedule, now: int)
    ensures IsNextFire(s, now, NextFire(s, now))
  {
    var today := LocalDay(s, now);
    var day := ScanFinds(s, now, 0);
    if HasNoDay(s) {
      NeverMatches(s);
    } else {
      var w := 0;
      if IsWeekly(s) {
        w :| 0 <= w <= 6 && w in s.weekdays;
      }
      var sure := WeekdayWithinWeek(s, now, w);
      assert IsCandidate(s, now, sure);
      InstantFacts(s, day);
      NoEarlierMatch(s, now, day);
      NotFarAhead(s, now, day);
    }
  }

  lemma NeverMatches(s: Schedule)
    requires HasNoDay(s)
    ensures forall u :: !Matches(s, u)
    ensures forall now, day :: !IsCandidate(s, now, day)
  {
    assert forall day :: 0 <= WeekdayOf(day) <= 6;
  }

  lemma NoEarlierMatch(s: Schedule, now: int, day: int)
    requires NoCandidate(s, now, LocalDay(s, now), day)
    ensures forall u :: now < u < Instant(s, day) && u % 60 == 0 ==> !Matches(s, u)
  {
    forall u | now < u < Instant(s, day) && u % 60 == 0 ensures !Matches(s, u) {
      MatchesMeaning(s, u);
      var other := LocalDay(s, u);
      if u == Instant(s, other) && IsWeekdayAllowed(s, WeekdayOf(other)) {
        LaterDayIsFuture(s, now, other);
        assert other >= day ==> Instant(s, other) >= Instant(s, day);
        assert IsCandidate(s, now, other);
        assert false;
      }
    }
  }

  lemma NotFarAhead(s: Schedule, now: int, day: int)
    requires LocalDay(s, now) <= day && IsCandidate(s, now, day) && NoCandidate(s, now, LocalDay(s, now), day)
    ensures Instant(s, day) <= now + (if IsWeekly(s) then 7 * DAY else DAY)
  {
    var step := if IsWeekly(s) then 7 else 1;
    var earlier := day - step;
    assert Instant(s, day) == Instant(s, earlier) + step * DAY;
    assert IsWeekly(s) ==> WeekdayOf(earlier) == WeekdayOf(day);
    if Instant(s, earlier) > now {
      LaterDayIsFuture(s, now, earlier);
      assert IsCandidate(s, now, earlier);
      assert false;
    }
  }

  // ---------- Evaluation and firing ----------

  datatype Evaluation = Evaluation(isDue: bool, isEnabled: bool, remaining: Option<int>, nextFire: Option<int>)

  function ResolveRemaining(config: Option<int>, stored: Option<int>): Option<int> {
    match stored
    case Some(n) => Some(if n < 0 then 0 else n)
    case None => config
  }

  predicate ResolveEnabled(config: bool, stored: Option<bool>) {
    config && stored.GetOr(true)
  }

  function EvaluateReminder(r: Reminder, st: TaskState, now: int): Evaluation {
    var remaining := ResolveRemaining(r.schedule.remainingRuns, st.remaining);
    var isEnabled := ResolveEnabled(r.enabled, st.enabled) && !(remaining.Some? && remaining.value <= 0);
    var isDuplicate := st.lastFired.Some? && Slot(st.lastFired.value) == Slot(now);
    Evaluation(isEnabled && Matches(r.schedule, now) && !isDuplicate, isEnabled, remaining,
               NextFire(r.schedule, now))
  }

  function MarkReminderSent(r: Reminder, st: TaskState, now: int): TaskState {
    var resolved := ResolveRemaining(r.schedule.remainingRuns, st.remaining);
    var remaining := match resolved case Some(n) => Some(if n - 1 < 0 then 0 else n - 1) case None => None;
    var enabled := match remaining
                   case Some(n) => n > 0
                   case None => ResolveEnabled(r.enabled, st.enabled);
    st.(lastFired := Some(now), nextFire := NextFire(r.schedule, now), remaining := remaining,
        enabled := Some(enabled))
  }
}
