/** Recurring jobs: the hour window, the interval since the last finish, and what they guarantee
    about every sequence of runs. */
module ScheduledJobs {
  import opened Text
  import opened Reminders

  datatype RawJobSchedule = RawJobSchedule(intervalSeconds: int, hourStart: Option<int>, hourEnd: Option<int>)

  /** The hours that the settings accept. */
  type JobSchedule = s: RawJobSchedule |
    (s.hourStart.Some? ==> 0 <= s.hourStart.value < 24) && (s.hourEnd.Some? ==> 0 <= s.hourEnd.value < 24)
    witness RawJobSchedule(3600, None, None)

  datatype Job = Job(enabled: bool, schedule: JobSchedule)

  datatype JobRun = JobRun(start: int, finish: int)

  /** The stored record of a job and the runs it has made. */
  datatype JobLife = JobLife(state: Option<TaskState>, runs: seq<JobRun>)

  /** The hour that the local clock shows. */
  function HourAt(offset: int, ts: int): (h: int)
    ensures 0 <= h < 24 && (ts + offset - h * 3600) % DAY < 3600
  {
    HourOfSecond((ts + offset) % DAY);
    HourOfDay(ts + offset, (ts + offset) % DAY / 3600);
    (ts + offset) % DAY / 3600
  }

  lemma HourOfSecond(second: int)
    requires 0 <= second < DAY
    ensures 0 <= second / 3600 < 24 && 0 <= second - second / 3600 * 3600 < 3600
  {
  }

  lemma HourOfDay(t: int, h: int)
    requires 0 <= t % DAY - h * 3600 < 3600
    ensures (t - h * 3600) % DAY < 3600
  {
    DayOf(t / DAY, t % DAY - h * 3600);
  }

  /** The hour window as the scheduler tests it; a window with one end is misconfigured. */
  predicate IsHourAllowed(s: JobSchedule, hour: int) {
    match (s.hourStart, s.hourEnd)
    case (None, None) => true
    case (Some(start), Some(end)) =>
      if start <= end then start <= hour <= end else hour >= start || hour <= end
    case _ => false
  }

  /** The hours of a job: all of them without a window, none with half a window, and otherwise those that follow
      the start on the clock face by no more than the end does. */
  ghost predicate OpenAt(s: JobSchedule, hour: int) {
    match (s.hourStart, s.hourEnd)
    case (None, None) => true
    case (Some(start), Some(end)) => (hour - start) % 24 <= (end - start) % 24
    case _ => false
  }

  /** The two-case test is that one test on the clock face. */
  lemma WindowIsCircular(s: JobSchedule, hour: int)
    requires 0 <= hour < 24
    ensures IsHourAllowed(s, hour) <==> OpenAt(s, hour)
  {
    if s.hourStart.Some? && s.hourEnd.Some? {
      var a, b := hour - s.hourStart.value, s.hourEnd.value - s.hourStart.value;
      assert a % 24 == if a < 0 then a + 24 else a;
      assert b % 24 == if b < 0 then b + 24 else b;
    }
  }

  function EffectiveInterval(s: JobSchedule): (r: int)
    ensures r >= 5 && r >= s.intervalSeconds && (r == 5 || r == s.intervalSeconds)
  {
    if s.intervalSeconds < 5 then 5 else s.intervalSeconds
  }

  datatype DueReason = HourWindowBlocked | FirstRun | IntervalElapsed | IntervalNotElapsed

  function DueInfo(s: JobSchedule, offset: int, st: TaskState, now: int): DueReason {
    if !IsHourAllowed(s, HourAt(offset, now)) then HourWindowBlocked
    else if st.lastRunAt <= 0 then FirstRun
    else if now - st.lastRunAt >= EffectiveInterval(s) then IntervalElapsed
    else IntervalNotElapsed
  }

  predicate IsDue(reason: DueReason) { reason == FirstRun || reason == IntervalElapsed }

  /** One tick of the scheduler, seen by one job that would finish at the given time. */
  function JobTick(job: Job, offset: int, life: JobLife, now: int, finish: int): JobLife {
    var st := life.state.GetOr(NO_STATE);
    if !job.enabled || !IsDue(DueInfo(job.schedule, offset, st, now)) then life
    else JobLife(Some(st.(lastStarted := Some(now), lastRunAt := finish)), life.runs + [JobRun(now, finish)])
  }

  function JobLive(job: Job, offset: int, start: JobLife, ticks: seq<int>, finishes: nat -> int): JobLife {
    if ticks == [] then start
    else
      var n := |ticks| - 1;
      JobTick(job, offset, JobLive(job, offset, start, ticks[..n], finishes), ticks[n], finishes(n))
  }

  /** The clock never runs backwards: a run finishes between its tick and the ones after it. */
  ghost predicate ClockRuns(ticks: seq<int>, finishes: nat -> int) {
    && (forall i :: 0 <= i < |ticks| ==> 0 < ticks[i] <= finishes(i))
    && (forall i, j :: 0 <= i < j < |ticks| ==> finishes(i) <= ticks[j])
  }

  ghost predicate Spaced(runs: seq<JobRun>, interval: int) {
    && (forall i :: 0 <= i < |runs| ==> runs[i].start <= runs[i].finish)
    && (forall i :: 0 < i < |runs| ==> runs[i].start >= runs[i - 1].finish + interval)
  }

  /** The first run keeps the interval to a run recorded earlier, such as before a restart. */
  ghost predicate FirstIsSpaced(runs: seq<JobRun>, lastRunAt: int, interval: int) {
    runs != [] && lastRunAt > 0 ==> runs[0].start >= lastRunAt + interval
  }

  ghost predicate InsideWindow(s: JobSchedule, offset: int, runs: seq<JobRun>) {
    forall i :: 0 <= i < |runs| ==> OpenAt(s, HourAt(offset, runs[i].start))
  }

  /** Every run starts inside its window, at least the interval after the previous one finished, the first
      one after the finish on record; the record holds the last finish. */
  ghost predicate KeepsSchedule(s: JobSchedule, offset: int, start: JobLife, life: JobLife) {
    && Spaced(life.runs, EffectiveInterval(s)) && InsideWindow(s, offset, life.runs)
    && FirstIsSpaced(life.runs, start.state.GetOr(NO_STATE).lastRunAt, EffectiveInterval(s))
    && (if life.runs == [] then life == start
        else life.state.Some? && life.state.value.lastRunAt == life.runs[|life.runs| - 1].finish > 0)
  }

  lemma TickKeepsSchedule(job: Job, offset: int, start: JobLife, life: JobLife, now: int, finish: int)
    requires KeepsSchedule(job.schedule, offset, start, life) && 0 < now <= finish
    ensures KeepsSchedule(job.schedule, offset, start, JobTick(job, offset, life, now, finish))
  {
    WindowIsCircular(job.schedule, HourAt(offset, now));
  }

  lemma {:induction false} RunsAreSpaced(job: Job, offset: int, start: JobLife, ticks: seq<int>, finishes: nat -> int)
    requires ClockRuns(ticks, finishes) && start.runs == []
    ensures KeepsSchedule(job.schedule, offset, start, JobLive(job, offset, start, ticks, finishes))
  {
    if ticks != [] {
      var n := |ticks| - 1;
      RunsAreSpaced(job, offset, start, ticks[..n], finishes);
      TickKeepsSchedule(job, offset, start, JobLive(job, offset, start, ticks[..n], finishes), ticks[n], finishes(n));
    }
  }

  /** So k runs span at least k-1 intervals. */
  lemma {:induction false} SpanOfRuns(runs: seq<JobRun>, interval: int)
    requires runs != [] && Spaced(runs, interval)
    ensures runs[|runs| - 1].start - runs[0].start >= (|runs| - 1) * interval
  {
    var n := |runs| - 1;
    if n > 0 {
      SpanOfRuns(runs[..n], interval);
      assert n * interval == (n - 1) * interval + interval;
    }
  }

  // ---------- No run is missed ----------

  /** Every run is at some tick, and finishes as that tick's run does. */
  ghost predicate RunsAtTicks(runs: seq<JobRun>, ticks: seq<int>, finishes: nat -> int) {
    forall k :: 0 <= k < |runs| ==> IsRunAt(runs[k], ticks, finishes)
  }

  ghost predicate IsRunAt(run: JobRun, ticks: seq<int>, finishes: nat -> int) {
    exists j :: 0 <= j < |ticks| && run == JobRun(ticks[j], finishes(j))
  }

  /** At this time the last finish, of a run or on record at the start, is less than the interval old. */
  ghost predicate IsRecent(start: JobLife, runs: seq<JobRun>, now: int, interval: int) {
    var recorded := start.state.GetOr(NO_STATE).lastRunAt;
    || (recorded > 0 && now - recorded < interval)
    || exists k :: 0 <= k < |runs| && runs[k].start <= now && now - runs[k].finish < interval
  }

  /** After every tick in an open hour the last finish is recent. */
  ghost predicate NoneMissed(s: JobSchedule, offset: int, start: JobLife, runs: seq<JobRun>, ticks: seq<int>) {
    forall i :: 0 <= i < |ticks| && OpenAt(s, HourAt(offset, ticks[i])) ==>
      IsRecent(start, runs, ticks[i], EffectiveInterval(s))
  }

  lemma RunsAtMoreTicks(runs: seq<JobRun>, ticks: seq<int>, finishes: nat -> int)
    requires ticks != [] && RunsAtTicks(runs, ticks[..|ticks| - 1], finishes)
    ensures RunsAtTicks(runs, ticks, finishes)
    ensures RunsAtTicks(runs + [JobRun(ticks[|ticks| - 1], finishes(|ticks| - 1))], ticks, finishes)
  {
    var n := |ticks| - 1;
    forall k | 0 <= k < |runs| ensures IsRunAt(runs[k], ticks, finishes) {
      assert IsRunAt(runs[k], ticks[..n], finishes);
      var j :| 0 <= j < n && runs[k] == JobRun(ticks[..n][j], finishes(j));
      assert runs[k] == JobRun(ticks[j], finishes(j));
    }
    assert IsRunAt(JobRun(ticks[n], finishes(n)), ticks, finishes);
  }

  lemma LastTickIsRecent(job: Job, offset: int, start: JobLife, life: JobLife, ticks: seq<int>, finishes: nat -> int)
    requires ClockRuns(ticks, finishes) && ticks != [] && job.enabled
    requires KeepsSchedule(job.schedule, offset, start, life) && RunsAtTicks(life.runs, ticks[..|ticks| - 1], finishes)
    requires OpenAt(job.schedule, HourAt(offset, ticks[|ticks| - 1]))
    ensures var n := |ticks| - 1;
      IsRecent(start, JobTick(job, offset, life, ticks[n], finishes(n)).runs, ticks[n], EffectiveInterval(job.schedule))
  {
    var n, k := |ticks| - 1, |life.runs|;
    WindowIsCircular(job.schedule, HourAt(offset, ticks[n]));
    var after := JobTick(job, offset, life, ticks[n], finishes(n));
    if after.runs != life.runs {
      assert after.runs[k] == JobRun(ticks[n], finishes(n));
    } else if k > 0 {
      assert IsRunAt(life.runs[k - 1], ticks[..n], finishes);
      assert after.runs[k - 1] == life.runs[k - 1];
    }
  }

  lemma StaysRecent(start: JobLife, runs: seq<JobRun>, more: seq<JobRun>, now: int, interval: int)
    requires IsRecent(start, runs, now, interval) && runs <= more
    ensures IsRecent(start, more, now, interval)
  {
  }

  /** A job that is switched off or has half a window. */
  ghost predicate NeverRuns(job: Job) {
    !job.enabled || job.schedule.hourStart.Some? != job.schedule.hourEnd.Some?
  }

  lemma OneMoreTick(s: JobSchedule, offset: int, start: JobLife, runs: seq<JobRun>, more: seq<JobRun>, ticks: seq<int>)
    requires ticks != [] && runs <= more && NoneMissed(s, offset, start, runs, ticks[..|ticks| - 1])
    requires var now := ticks[|ticks| - 1];
      OpenAt(s, HourAt(offset, now)) ==> IsRecent(start, more, now, EffectiveInterval(s))
    ensures NoneMissed(s, offset, start, more, ticks)
  {
    forall i | 0 <= i < |ticks| && OpenAt(s, HourAt(offset, ticks[i]))
      ensures IsRecent(start, more, ticks[i], EffectiveInterval(s))
    {
      if i < |ticks| - 1 {
        assert ticks[..|ticks| - 1][i] == ticks[i];
        StaysRecent(start, runs, more, ticks[i], EffectiveInterval(s));
      }
    }
  }

  lemma TickIsRunOrNothing(job: Job, offset: int, life: JobLife, now: int, finish: int)
    ensures var next := JobTick(job, offset, life, now, finish);
      next.runs == life.runs || next.runs == life.runs + [JobRun(now, finish)]
    ensures NeverRuns(job) ==> JobTick(job, offset, life, now, finish) == life
  {
  }

  /** And none is missed: after every tick in an open hour the last finish is under an interval old. */
  lemma {:induction false} NoRunMissed(job: Job, offset: int, start: JobLife, ticks: seq<int>, finishes: nat -> int)
    requires ClockRuns(ticks, finishes) && start.runs == []
    ensures var life := JobLive(job, offset, start, ticks, finishes);
      && RunsAtTicks(life.runs, ticks, finishes)
      && (job.enabled ==> NoneMissed(job.schedule, offset, start, life.runs, ticks))
      && (NeverRuns(job) ==> life == start)
  {
    if ticks != [] {
      var n := |ticks| - 1;
      var before := JobLive(job, offset, start, ticks[..n], finishes);
      NoRunMissed(job, offset, start, ticks[..n], finishes);
      RunsAreSpaced(job, offset, start, ticks[..n], finishes);
      RunsAtMoreTicks(before.runs, ticks, finishes);
      TickIsRunOrNothing(job, offset, before, ticks[n], finishes(n));
      if job.enabled {
        var more := JobTick(job, offset, before, ticks[n], finishes(n)).runs;
        if OpenAt(job.schedule, HourAt(offset, ticks[n])) {
          LastTickIsRecent(job, offset, start, before, ticks, finishes);
        }
        OneMoreTick(job.schedule, offset, start, before.runs, more, ticks);
      }
    }
  }
}
