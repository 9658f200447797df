/** The scheduler itself: one object whose records, loaded tasks and configuration change on every
    tick, proved to treat each task as its own life (ReminderLife.dfy, ScheduledJobs.dfy) says. */
module Scheduler {
  import opened Text
  import opened Reminders
  import opened ReminderLife
  import opened ScheduledJobs

  datatype Key = Key(owner: string, id: string)

  datatype Task = InternalRun(job: Job) | TelegramMessage(reminder: Reminder)

  /** A task of some tenant's schedule file. */
  datatype Item = Item(key: Key, task: Task)

  ghost predicate UniqueKeys(items: seq<Item>) {
    forall i, j :: 0 <= i < j < |items| ==> items[i].key != items[j].key
  }

  /** The items without the one of this key. */
  function Without(items: seq<Item>, key: Key): seq<Item> {
    if items == [] then []
    else Without(items[..|items| - 1], key) + if items[|items| - 1].key == key then [] else [items[|items| - 1]]
  }

  lemma {:induction false} WithoutFacts(items: seq<Item>, key: Key)
    ensures forall x :: x in Without(items, key) <==> x in items && x.key != key
    ensures UniqueKeys(items) ==> UniqueKeys(Without(items, key))
  {
    if items != [] {
      var before, last := items[..|items| - 1], items[|items| - 1];
      WithoutFacts(before, key);
      assert items == before + [last];
      if UniqueKeys(items) {
        assert forall x :: x in before ==> x.key != last.key;
        AppendNewKey(Without(before, key), last);
      }
    }
  }

  lemma AppendNewKey(items: seq<Item>, last: Item)
    requires UniqueKeys(items) && forall x :: x in items ==> x.key != last.key
    ensures UniqueKeys(items + [last])
  {
    assert forall i :: 0 <= i < |items| ==> items[i] in items;
  }

  /** The tenants' schedule files; the version stands for their modification times. */
  class ScheduleFiles {
    var items: seq<Item>
    var version: nat

    /** Deletes a task from its file; reports whether it was there. */
    method Delete(key: Key) returns (isDeleted: bool)
      modifies this
      ensures isDeleted <==> exists i :: 0 <= i < |old(items)| && old(items)[i].key == key
      ensures items == Without(old(items), key)
      ensures version == old(version) + if isDeleted then 1 else 0
      ensures !isDeleted ==> items == old(items)
    {
      var kept := [];
      isDeleted := false;
      for i := 0 to |items|
        invariant isDeleted <==> exists k :: 0 <= k < i && items[k].key == key
        invariant kept == Without(items[..i], key)
        invariant !isDeleted ==> kept == items[..i]
      {
        assert items[..i + 1][..i] == items[..i];
        if items[i].key == key {
          isDeleted := true;
        } else {
          kept := kept + [items[i]];
        }
      }
      assert items[..|items|] == items;
      if isDeleted {
        items, version := kept, version + 1;
      }
    }
  }

  class SchedulerRunner {
    const files: ScheduleFiles
    const offset: int
    var tasksState: map<Key, TaskState>
    var runningJobs: set<Key>
    var loaded: seq<Item>
    var snapshot: Option<nat>
    ghost var sent: map<Key, seq<int>>
    ghost var runs: map<Key, seq<JobRun>>

    constructor (files: ScheduleFiles, offset: int, stored: map<Key, TaskState>)
      ensures this.files == files && this.offset == offset && tasksState == stored
      ensures sent == map[] && runs == map[] && Valid()
    {
      this.files, this.offset, tasksState := files, offset, stored;
      runningJobs, loaded, snapshot := {}, [], None;
      sent, runs := map[], map[];
    }

    ghost predicate Valid()
      reads this, files
    {
      && runningJobs == {}
      && (snapshot.Some? ==> snapshot.value <= files.version)
      && (snapshot == Some(files.version) ==> loaded == files.items)
    }

    ghost predicate Listed(key: Key)
      reads files
    {
      HasKey(files.items, key)
    }

    function StateOf(key: Key): Option<TaskState>
      reads this
    {
      if key in tasksState then Some(tasksState[key]) else None
    }

    ghost function LifeOf(key: Key): Life
      reads this, files
    {
      Life(Listed(key), StateOf(key), if key in sent then sent[key] else [])
    }

    ghost function JobLifeOf(key: Key): JobLife
      reads this
    {
      JobLife(StateOf(key), if key in runs then runs[key] else [])
    }

    method ReloadIfChanged()
      requires Valid()
      modifies this`loaded, this`snapshot
      ensures Valid() && loaded == files.items && snapshot == Some(files.version)
    {
      if snapshot != Some(files.version) {
        snapshot := Some(files.version);
        loaded := files.items;
      }
    }

    /** Runs a due job; the guard against overlapping runs never blocks within one thread. */
    method RunJobIfNotRunning(key: Key, now: int, finish: int)
      requires runningJobs == {}
      modifies this`tasksState, this`runningJobs, this`runs
      ensures runningJobs == {}
      ensures tasksState == old(tasksState)[key := old(StateOf(key)).GetOr(NO_STATE).(lastStarted := Some(now), lastRunAt := finish)]
      ensures runs == old(runs)[key := old(JobLifeOf(key)).runs + [JobRun(now, finish)]]
    {
      if key in runningJobs {
        return;
      }
      runningJobs := runningJobs + {key};
      var previous := StateOf(key).GetOr(NO_STATE);
      tasksState := tasksState[key := previous.(lastStarted := Some(now))];
      runs := runs[key := JobLifeOf(key).runs + [JobRun(now, finish)]];
      tasksState := tasksState[key := tasksState[key].(lastRunAt := finish)];
      runningJobs := runningJobs - {key};
    }

    /** Runs every loaded job that is due. */
    method ProcessJobs(now: int, finishes: Key -> int)
      requires Valid() && loaded == files.items && UniqueKeys(loaded)
      modifies this`tasksState, this`runningJobs, this`runs
      ensures Valid()
      ensures forall x :: x in loaded ==>
        match x.task
        case TelegramMessage(_) => LifeOf(x.key) == old(LifeOf(x.key))
        case InternalRun(job) => JobLifeOf(x.key) == JobTick(job, offset, old(JobLifeOf(x.key)), now, finishes(x.key))
      ensures forall key :: !HasKey(loaded, key) ==> LifeOf(key) == old(LifeOf(key)) && JobLifeOf(key) == old(JobLifeOf(key))
    {
      RunDueJobs(now, finishes);
      UnknownKeys(loaded);
      forall x | x in loaded
        ensures match x.task
          case TelegramMessage(_) => LifeOf(x.key) == old(LifeOf(x.key))
          case InternalRun(job) => JobLifeOf(x.key) == JobTick(job, offset, old(JobLifeOf(x.key)), now, finishes(x.key))
      {
        var i :| 0 <= i < |loaded| && loaded[i] == x;
        OneTaskPerKey(loaded, i);
      }
    }

    method RunDueJobs(now: int, finishes: Key -> int)
      requires Valid() && loaded == files.items && UniqueKeys(loaded)
      modifies this`tasksState, this`runningJobs, this`runs
      ensures Valid()
      ensures forall i :: 0 <= i < |loaded| && loaded[i].task.InternalRun? ==>
        JobLifeOf(loaded[i].key) ==
        JobTick(loaded[i].task.job, offset, old(JobLifeOf(loaded[i].key)), now, finishes(loaded[i].key))
      ensures forall key :: !IsJobKey(loaded, |loaded|, key) ==>
        StateOf(key) == old(StateOf(key)) && JobLifeOf(key) == old(JobLifeOf(key))
    {
      for n := 0 to |loaded|
        invariant runningJobs == {}
        invariant forall i :: 0 <= i < n && loaded[i].task.InternalRun? ==>
          JobLifeOf(loaded[i].key) ==
          JobTick(loaded[i].task.job, offset, old(JobLifeOf(loaded[i].key)), now, finishes(loaded[i].key))
        invariant forall key :: !IsJobKey(loaded, n, key) ==>
          StateOf(key) == old(StateOf(key)) && JobLifeOf(key) == old(JobLifeOf(key))
      {
        var item := loaded[n];
        if item.task.InternalRun? && item.task.job.enabled {
          var due := DueInfo(item.task.job.schedule, offset, StateOf(item.key).GetOr(NO_STATE), now);
          if IsDue(due) {
            RunJobIfNotRunning(item.key, now, finishes(item.key));
          }
        }
      }
    }

    /** Evaluates every loaded reminder; a due one is delivered, booked, and removed when spent. */
    method ProcessReminders(now: int, deliveries: Key -> Delivery)
      requires Valid() && loaded == files.items && UniqueKeys(loaded)
      modifies this`tasksState, this`sent, files
      ensures Valid()
      ensures forall x :: x in loaded ==>
        match x.task
        case TelegramMessage(r) => LifeOf(x.key) == Tick(r, old(LifeOf(x.key)), now, deliveries(x.key))
        case InternalRun(_) => JobLifeOf(x.key) == old(JobLifeOf(x.key)) && x in files.items
      ensures forall key :: !HasKey(loaded, key) ==> LifeOf(key) == old(LifeOf(key)) && JobLifeOf(key) == old(JobLifeOf(key))
      ensures UniqueKeys(files.items) && (forall x :: x in files.items ==> x in loaded)
    {
      ProcessInTurn(now, deliveries);
      forall x | x in loaded
        ensures match x.task
          case TelegramMessage(r) => LifeOf(x.key) == Tick(r, old(LifeOf(x.key)), now, deliveries(x.key))
          case InternalRun(_) => JobLifeOf(x.key) == old(JobLifeOf(x.key)) && x in files.items
      {
        var i :| 0 <= i < |loaded| && loaded[i] == x;
        OneTaskPerKey(loaded, i);
        ghost var life := old(LifeOf(x.key));
        if x.task.TelegramMessage? {
          OneStep(loaded, i, life, now, deliveries(x.key));
        } else {
          NotItsTurn(loaded, x.key, life, now, deliveries(x.key));
          assert old(Listed(x.key)) && LifeOf(x.key) == life;
          SameItem(loaded, files.items, x);
        }
      }
      UnknownKeys(loaded);
      forall key | !HasKey(loaded, key) ensures LifeOf(key) == old(LifeOf(key)) {
        NotItsTurn(loaded, key, old(LifeOf(key)), now, deliveries(key));
      }
    }

    /** The loop over the loaded reminders, told for every key at once. */
    method ProcessInTurn(now: int, deliveries: Key -> Delivery)
      requires Valid() && loaded == files.items && UniqueKeys(loaded)
      modifies this`tasksState, this`sent, files
      ensures Valid()
      ensures forall key :: LifeOf(key) == LifeAfter(loaded, key, old(LifeOf(key)), now, deliveries(key))
      ensures forall key :: !IsReminderKey(loaded, |loaded|, key) ==> JobLifeOf(key) == old(JobLifeOf(key))
      ensures UniqueKeys(files.items) && (forall x :: x in files.items ==> x in loaded)
    {
      assert loaded[..|loaded|] == loaded;
      for n := 0 to |loaded|
        invariant Valid()
        invariant forall key :: LifeOf(key) == LifeAfter(loaded[..n], key, old(LifeOf(key)), now, deliveries(key))
        invariant forall key :: !IsReminderKey(loaded, n, key) ==> JobLifeOf(key) == old(JobLifeOf(key))
        invariant UniqueKeys(files.items) && (forall x :: x in files.items ==> x in loaded)
      {
        var item := loaded[n];
        assert old(Listed(item.key));
        UntouchedSoFar(loaded, n, old(LifeOf(item.key)), now, deliveries(item.key));
        LifeAfterOneMore(loaded, n, now);
        if item.task.TelegramMessage? {
          ProcessOne(item.key, item.task.reminder, now, deliveries(item.key));
        }
      }
    }

    method ProcessOne(key: Key, r: Reminder, now: int, delivery: Delivery)
      requires Valid() && UniqueKeys(files.items) && Listed(key)
      modifies this`tasksState, this`sent, files
      ensures Valid()
      ensures LifeOf(key) == Tick(r, old(LifeOf(key)), now, delivery)
      ensures forall other :: other != key ==>
        LifeOf(other) == old(LifeOf(other)) && JobLifeOf(other) == old(JobLifeOf(other))
      ensures UniqueKeys(files.items) && (forall x :: x in files.items ==> x in old(files.items))
    {
      if !r.enabled {
        return;
      }
      var one := StateOf(key).GetOr(NO_STATE);
      var evaluation := EvaluateReminder(r, one, now);
      var merged := one.(nextFire := evaluation.nextFire, remaining := evaluation.remaining,
                         enabled := Some(evaluation.isEnabled));
      if merged != one {
        tasksState := tasksState[key := merged];
      }
      assert StateOf(key) == Some(merged);
      if evaluation.isDue && delivery.Delivered? {
        BookDelivery(key, r, merged, now, delivery.removal);
      }
    }

    /** A delivery that went through: the record moves on, and a spent reminder is removed. */
    method BookDelivery(key: Key, r: Reminder, merged: TaskState, now: int, removal: Removal)
      requires Valid() && UniqueKeys(files.items) && Listed(key) && StateOf(key) == Some(merged)
      modifies this`tasksState, this`sent, files
      ensures Valid()
      ensures var updated := MarkReminderSent(r, merged, now);
        LifeOf(key) ==
        if updated.remaining == Some(0) && updated.enabled == Some(false) && removal == Removed
        then Life(false, None, old(LifeOf(key)).fired + [now])
        else Life(true, Some(updated), old(LifeOf(key)).fired + [now])
      ensures forall other :: other != key ==>
        LifeOf(other) == old(LifeOf(other)) && JobLifeOf(other) == old(JobLifeOf(other))
      ensures UniqueKeys(files.items) && (forall x :: x in files.items ==> x in old(files.items))
    {
      var updated := MarkReminderSent(r, tasksState[key], now);
      tasksState := tasksState[key := updated];
      sent := sent[key := LifeOf(key).fired + [now]];
      var shouldRemove := updated.remaining == Some(0) && updated.enabled == Some(false);
      if shouldRemove && removal == Removed {
        RemoveFromFile(key);
        tasksState := tasksState - {key};
      }
    }

    /** The completion callback edits the configuration, not the tasks loaded for this tick. */
    method RemoveFromFile(key: Key)
      requires Valid() && UniqueKeys(files.items) && Listed(key)
      modifies files
      ensures Valid() && !Listed(key)
      ensures forall other :: other != key ==> Listed(other) == old(Listed(other))
      ensures UniqueKeys(files.items) && (forall x :: x in files.items ==> x in old(files.items))
    {
      ghost var before := files.items;
      WithoutFacts(files.items, key);
      var isDeleted := files.Delete(key);
      assert isDeleted;
      forall other | other != key ensures Listed(other) == old(Listed(other)) {
        if i :| 0 <= i < |before| && before[i].key == other {
          assert before[i] in files.items;
        }
        if i :| 0 <= i < |files.items| && files.items[i].key == other {
          assert files.items[i] in before;
        }
      }
    }

    /** What one tick does to every task listed when it starts. */
    twostate predicate Ticked(items: seq<Item>, now: int, deliveries: Key -> Delivery, finishes: Key -> int)
      reads this, files
    {
      forall x :: x in items ==>
        match x.task
        case TelegramMessage(r) => LifeOf(x.key) == Tick(r, old(LifeOf(x.key)), now, deliveries(x.key))
        case InternalRun(job) => JobLifeOf(x.key) == JobTick(job, offset, old(JobLifeOf(x.key)), now, finishes(x.key))
    }

    /** And what it leaves alone. */
    twostate predicate Untouched(items: seq<Item>)
      reads this, files
    {
      forall key :: !HasKey(items, key) ==> LifeOf(key) == old(LifeOf(key)) && JobLifeOf(key) == old(JobLifeOf(key))
    }

    method TickOnce(now: int, deliveries: Key -> Delivery, finishes: Key -> int)
      requires Valid() && UniqueKeys(files.items)
      modifies this, files
      ensures Valid() && Ticked(old(files.items), now, deliveries, finishes) && Untouched(old(files.items))
      ensures UniqueKeys(files.items) && (forall x :: x in files.items ==> x in old(files.items))
      ensures forall x :: x in old(files.items) && x.task.InternalRun? ==> x in files.items
    {
      ReloadIfChanged();
      ProcessJobs(now, finishes);
      ProcessReminders(now, deliveries);
    }

    /** Every task of the given configuration has lived exactly the life that the ticks so far dictate. */
    twostate predicate Lived(items: seq<Item>, ticks: seq<int>, deliveries: (nat, Key) -> Delivery,
                             finishes: (nat, Key) -> int)
      reads this, files
    {
      forall x :: x in items ==>
        match x.task
        case TelegramMessage(r) => LifeOf(x.key) == Live(r, old(LifeOf(x.key)), ticks, DeliveriesOf(deliveries, x.key))
        case InternalRun(job) =>
          JobLifeOf(x.key) == JobLive(job, offset, old(JobLifeOf(x.key)), ticks, FinishesOf(finishes, x.key))
    }

    /** Any number of ticks, with any outcome of every delivery and removal; only the completion
        callback edits the configuration. */
    method RunTicks(ticks: seq<int>, deliveries: (nat, Key) -> Delivery, finishes: (nat, Key) -> int)
      requires Valid() && UniqueKeys(files.items)
      modifies this, files
      ensures Valid() && Lived(old(files.items), ticks, deliveries, finishes)
      ensures forall x :: x in old(files.items) ==>
        match x.task
        case TelegramMessage(r) =>
          ReminderKept(r, old(LifeOf(x.key)), LifeOf(x.key), ticks, DeliveriesOf(deliveries, x.key))
        case InternalRun(job) =>
          JobKept(job, offset, old(JobLifeOf(x.key)), JobLifeOf(x.key), ticks, FinishesOf(finishes, x.key))
    {
      ghost var items := files.items;
      for n := 0 to |ticks|
        invariant Valid() && UniqueKeys(files.items)
        invariant forall x :: x in files.items ==> x in items
        invariant forall x :: x in items && x.task.InternalRun? ==> x in files.items
        invariant Lived(items, ticks[..n], deliveries, finishes)
      {
        label Before:
        ghost var listed := files.items;
        TickOnce(ticks[n], key => deliveries(n, key), key => finishes(n, key));
        assert ticks[..n + 1][..n] == ticks[..n];
        forall x | x in items
          ensures match x.task
            case TelegramMessage(r) =>
              LifeOf(x.key) == Live(r, old(LifeOf(x.key)), ticks[..n + 1], DeliveriesOf(deliveries, x.key))
            case InternalRun(job) =>
              JobLifeOf(x.key) == JobLive(job, offset, old(JobLifeOf(x.key)), ticks[..n + 1], FinishesOf(finishes, x.key))
        {
          if x !in listed {
            assert !HasKey(listed, x.key);
          }
        }
      }
      assert ticks[..|ticks|] == ticks;
      forall x | x in items
        ensures match x.task
          case TelegramMessage(r) =>
            ReminderKept(r, old(LifeOf(x.key)), LifeOf(x.key), ticks, DeliveriesOf(deliveries, x.key))
          case InternalRun(job) =>
            JobKept(job, offset, old(JobLifeOf(x.key)), JobLifeOf(x.key), ticks, FinishesOf(finishes, x.key))
      {
        match x.task
        case TelegramMessage(r) =>
          LivedReminderIsKept(r, old(LifeOf(x.key)), ticks, DeliveriesOf(deliveries, x.key));
        case InternalRun(job) =>
          LivedJobIsKept(job, offset, old(JobLifeOf(x.key)), ticks, FinishesOf(finishes, x.key));
      }
    }
  }

  /** Delivered in the first of the minutes where a due tick succeeds, which are all due minutes when nothing
      fails, and within its budget always; removed exactly with its last run; silent when off. */
  ghost predicate ReminderKept(r: Reminder, start: Life, life: Life, ticks: seq<int>, outcomes: nat -> Delivery) {
    && (CanFire(r, start) ==>
          FiredSoFar(r, life, Stock(r, start), Hits(r.schedule, UsedSlot(start), ticks, outcomes), UsedSlot(start)))
    && (CanFire(r, start) ==>
          (!life.present <==>
           Stock(r, start).Some? && IsRemoved(r.schedule, UsedSlot(start), ticks, outcomes, Stock(r, start).value)))
    && (Regular(r, start, ticks, outcomes) ==>
          Slots(life.fired)
          == AtMost(DueSlots(r.schedule, FirstSlot(start, ticks[0]), Slot(ticks[|ticks| - 1])), Stock(r, start)))
    && (NonDecreasing(ticks) && start.present && start.fired == [] && Stock(r, start).Some? ==>
          Increasing(Slots(life.fired)) && |life.fired| <= Stock(r, start).value)
    && (IsOff(r, start) ==> life.fired == start.fired && life.present == start.present)
    && (r.enabled && ticks != [] && life.present ==>
          life.state.Some? && IsNextFire(r.schedule, ticks[|ticks| - 1], life.state.value.nextFire))
  }

  lemma LivedReminderIsKept(r: Reminder, start: Life, ticks: seq<int>, outcomes: nat -> Delivery)
    ensures ReminderKept(r, start, Live(r, start, ticks, outcomes), ticks, outcomes)
  {
    if CanFire(r, start) {
      FiredIsHits(r, start, ticks, outcomes);
      RemovedIff(r, start, ticks, outcomes);
    }
    if Regular(r, start, ticks, outcomes) {
      ExactlyOnce(r, start, ticks, outcomes);
    }
    if NonDecreasing(ticks) && start.present && start.fired == [] && Stock(r, start).Some? {
      Budget(r, start, Stock(r, start).value, ticks, outcomes);
    }
    if IsOff(r, start) {
      OffStaysSilent(r, start, ticks, outcomes);
    }
    if r.enabled && ticks != [] {
      RecordTellsNextFire(r, start, ticks, outcomes);
    }
  }

  /** A job keeps its interval and its hours over all its runs, and misses none: without a window, or in its
      hours with one, the last finish is recent after every tick. */
  ghost predicate JobKept(job: Job, offset: int, start: JobLife, life: JobLife, ticks: seq<int>, finishes: nat -> int) {
    ClockRuns(ticks, finishes) && start.runs == [] ==>
      && Spaced(life.runs, EffectiveInterval(job.schedule)) && InsideWindow(job.schedule, offset, life.runs)
      && FirstIsSpaced(life.runs, start.state.GetOr(NO_STATE).lastRunAt, EffectiveInterval(job.schedule))
      && RunsAtTicks(life.runs, ticks, finishes)
      && (job.enabled ==> NoneMissed(job.schedule, offset, start, life.runs, ticks))
      && (NeverRuns(job) ==> life == start)
  }

  lemma LivedJobIsKept(job: Job, offset: int, start: JobLife, ticks: seq<int>, finishes: nat -> int)
    ensures JobKept(job, offset, start, JobLive(job, offset, start, ticks, finishes), ticks, finishes)
  {
    if ClockRuns(ticks, finishes) && start.runs == [] {
      RunsAreSpaced(job, offset, start, ticks, finishes);
      NoRunMissed(job, offset, start, ticks, finishes);
    }
  }

  function DeliveriesOf(deliveries: (nat, Key) -> Delivery, key: Key): nat -> Delivery {
    (n: nat) => deliveries(n, key)
  }

  function FinishesOf(finishes: (nat, Key) -> int, key: Key): nat -> int {
    (n: nat) => finishes(n, key)
  }

  /** A life after these tasks were processed in turn: each reminder of its key makes one step. */
  function LifeAfter(items: seq<Item>, key: Key, life: Life, now: int, delivery: Delivery): Life {
    if items == [] then life
    else
      var before, last := LifeAfter(items[..|items| - 1], key, life, now, delivery), items[|items| - 1];
      if last.task.TelegramMessage? && last.key == key then Tick(last.task.reminder, before, now, delivery) else before
  }

  lemma LifeAfterOneMore(items: seq<Item>, n: nat, now: int)
    requires n < |items|
    ensures forall key, life, d ::
      (LifeAfter(items[..n + 1], key, life, now, d) ==
       if items[n].task.TelegramMessage? && items[n].key == key
       then Tick(items[n].task.reminder, LifeAfter(items[..n], key, life, now, d), now, d)
       else LifeAfter(items[..n], key, life, now, d))
  {
    assert items[..n + 1][..n] == items[..n];
  }

  lemma {:induction false} NotItsTurn(items: seq<Item>, key: Key, life: Life, now: int, delivery: Delivery)
    requires !IsReminderKey(items, |items|, key)
    ensures LifeAfter(items, key, life, now, delivery) == life
  {
    if items != [] {
      var n := |items| - 1;
      assert forall i :: 0 <= i < n ==> items[..n][i] == items[i];
      NotItsTurn(items[..n], key, life, now, delivery);
    }
  }

  lemma UntouchedSoFar(items: seq<Item>, n: nat, life: Life, now: int, delivery: Delivery)
    requires UniqueKeys(items) && n < |items|
    ensures LifeAfter(items[..n], items[n].key, life, now, delivery) == life
  {
    NotItsTurn(items[..n], items[n].key, life, now, delivery);
  }

  /** With one task per key its reminder makes exactly one step. */
  lemma {:induction false} OneStep(items: seq<Item>, i: nat, life: Life, now: int, delivery: Delivery)
    requires UniqueKeys(items) && i < |items| && items[i].task.TelegramMessage?
    ensures LifeAfter(items, items[i].key, life, now, delivery) == Tick(items[i].task.reminder, life, now, delivery)
  {
    var n := |items| - 1;
    if i == n {
      UntouchedSoFar(items, n, life, now, delivery);
    } else {
      OneStep(items[..n], i, life, now, delivery);
    }
  }

  ghost predicate HasKey(items: seq<Item>, key: Key) {
    exists i :: 0 <= i < |items| && items[i].key == key
  }

  ghost predicate IsJobKey(items: seq<Item>, n: nat, key: Key)
    requires n <= |items|
  {
    exists i :: 0 <= i < n && items[i].task.InternalRun? && items[i].key == key
  }

  lemma OneTaskPerKey(items: seq<Item>, i: nat)
    requires UniqueKeys(items) && i < |items|
    ensures IsReminderKey(items, |items|, items[i].key) <==> items[i].task.TelegramMessage?
    ensures IsJobKey(items, |items|, items[i].key) <==> items[i].task.InternalRun?
  {
  }

  lemma UnknownKeys(items: seq<Item>)
    ensures forall key :: !HasKey(items, key) ==> !IsReminderKey(items, |items|, key) && !IsJobKey(items, |items|, key)
  {
  }

  lemma SameItem(items: seq<Item>, kept: seq<Item>, x: Item)
    requires UniqueKeys(items) && x in items && (forall y :: y in kept ==> y in items) && HasKey(kept, x.key)
    ensures x in kept
  {
    var k :| 0 <= k < |kept| && kept[k].key == x.key;
    assert kept[k] in items;
  }

  ghost predicate IsReminderKey(items: seq<Item>, n: nat, key: Key)
    requires n <= |items|
  {
    exists i :: 0 <= i < n && items[i].task.TelegramMessage? && items[i].key == key
  }
}
