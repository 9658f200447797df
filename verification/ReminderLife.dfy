/** The life of one reminder over any sequence of scheduler ticks: never more deliveries than its
    budget, and, with ticks at most a minute apart, exactly one in every due minute. */
module ReminderLife {
  import opened Text
  import opened Reminders

  /** What the completion callback does with a spent reminder. */
  datatype Removal = Removed | NotFound | RemovalRaised

  datatype Delivery = Failed | Delivered(removal: Removal)

  /** A reminder in the configuration or not, its stored record, and the times it was delivered. */
  datatype Life = Life(present: bool, state: Option<TaskState>, fired: seq<int>)

  /** One tick of the scheduler, seen by one reminder. */
  function Tick(r: Reminder, life: Life, now: int, d: Delivery): Life {
    if !life.present || !r.enabled then life
    else
      var one := life.state.GetOr(NO_STATE);
      var evaluation := EvaluateReminder(r, one, now);
      var merged := one.(nextFire := evaluation.nextFire, remaining := evaluation.remaining,
                         enabled := Some(evaluation.isEnabled));
      if !evaluation.isDue || d.Failed? then life.(state := Some(merged))
      else
        var updated := MarkReminderSent(r, merged, now);
        if updated.remaining == Some(0) && updated.enabled == Some(false) && d.removal == Removed
        then Life(false, None, life.fired + [now])
        else Life(true, Some(updated), life.fired + [now])
  }

  function Live(r: Reminder, start: Life, ticks: seq<int>, deliveries: nat -> Delivery): Life {
    if ticks == [] then start
    else
      var n := |ticks| - 1;
      Tick(r, Live(r, start, ticks[..n], deliveries), ticks[n], deliveries(n))
  }

  /** Runs left: those on record, or else those configured; none means unlimited. */
  ghost function Stock(r: Reminder, life: Life): Option<int> {
    match life.state.GetOr(NO_STATE).remaining
    case Some(n) => Some(if n > 0 then n else 0)
    case None => r.schedule.remainingRuns
  }

  ghost predicate NonDecreasing(ticks: seq<int>) {
    forall i :: 0 < i < |ticks| ==> ticks[i - 1] <= ticks[i]
  }

  ghost predicate Dense(ticks: seq<int>) {
    forall i :: 0 < i < |ticks| ==> ticks[i - 1] <= ticks[i] <= ticks[i - 1] + 60
  }

  function Slots(times: seq<int>): (r: seq<int>)
    ensures |r| == |times| && forall i :: 0 <= i < |times| ==> r[i] == Slot(times[i])
  {
    seq(|times|, i requires 0 <= i < |times| => Slot(times[i]))
  }

  ghost predicate Increasing(s: seq<int>) {
    forall i, j :: 0 <= i < j < |s| ==> s[i] < s[j]
  }

  // ---------- The budget, under any failures ----------

  /** Deliveries so far and runs left add up to the budget, and deliveries fall in distinct minutes. */
  ghost predicate WithinBudget(r: Reminder, life: Life, n: int, now: int) {
    && |life.fired| + (if life.present then Stock(r, life).GetOr(-1) else 0) == n
    && (life.present ==> Stock(r, life).Some? && Stock(r, life).value >= 0)
    && Increasing(Slots(life.fired)) && (forall t :: t in life.fired ==> t <= now)
    && (life.present && life.fired != [] ==>
          life.state.Some? && life.state.value.lastFired == Some(life.fired[|life.fired| - 1]))
  }

  lemma TickWithinBudget(r: Reminder, life: Life, n: int, before: int, now: int, d: Delivery)
    requires WithinBudget(r, life, n, before) && before <= now
    ensures WithinBudget(r, Tick(r, life, now, d), n, now)
  {
    if life.present && Tick(r, life, now, d).fired != life.fired {
      TickSpends(r, life, now, d);
      if life.fired != [] {
        var last := life.fired[|life.fired| - 1];
        assert last in life.fired;
        LaterSlot(last, now);
        AppendLater(Slots(life.fired), Slot(now));
      }
      assert Slots(life.fired + [now]) == Slots(life.fired) + [Slot(now)];
    } else if life.present {
      TickKeeps(r, life, now, d);
    }
  }

  lemma AppendLater(slots: seq<int>, slot: int)
    requires Increasing(slots) && slots != [] && slots[|slots| - 1] < slot
    ensures Increasing(slots + [slot])
  {
  }

  /** A delivery takes one run and is the last on record, in another minute than the one before. */
  lemma TickSpends(r: Reminder, life: Life, now: int, d: Delivery)
    requires life.present && Tick(r, life, now, d).fired != life.fired && Stock(r, life).Some?
    ensures var next := Tick(r, life, now, d); var left := Stock(r, life).value;
      && next.fired == life.fired + [now] && left > 0
      && (if next.present then Stock(r, next) == Some(left - 1) && next.state.Some? && next.state.value.lastFired == Some(now)
          else left == 1)
      && (life.state.Some? && life.state.value.lastFired.Some? ==> Slot(life.state.value.lastFired.value) != Slot(now))
  {
  }

  lemma TickKeeps(r: Reminder, life: Life, now: int, d: Delivery)
    requires life.present && Tick(r, life, now, d).fired == life.fired
    ensures var next := Tick(r, life, now, d);
      && next.present && Stock(r, next) == Stock(r, life)
      && (life.state.Some? ==> next.state.Some? && next.state.value.lastFired == life.state.value.lastFired)
  {
  }

  /** Whatever fails, a reminder with n runs left is delivered at most n times, in distinct minutes,
      and as long as its record exists what was delivered and what is left add up to n. */
  lemma {:induction false} Budget(r: Reminder, start: Life, n: int, ticks: seq<int>, deliveries: nat -> Delivery)
    requires NonDecreasing(ticks) && start.present && start.fired == [] && Stock(r, start) == Some(n)
    ensures var life := Live(r, start, ticks, deliveries);
      && |life.fired| <= n && Increasing(Slots(life.fired))
      && (life.present ==> Stock(r, life) == Some(n - |life.fired|))
      && (!life.present ==> |life.fired| == n)
  {
    BudgetStep(r, start, n, ticks, deliveries);
  }

  lemma {:induction false} BudgetStep(r: Reminder, start: Life, n: int, ticks: seq<int>, deliveries: nat -> Delivery)
    requires NonDecreasing(ticks) && start.present && start.fired == [] && Stock(r, start) == Some(n)
    ensures WithinBudget(r, Live(r, start, ticks, deliveries), n, if ticks == [] then 0 else ticks[|ticks| - 1])
  {
    if ticks != [] {
      var k := |ticks| - 1;
      BudgetStep(r, start, n, ticks[..k], deliveries);
      var before := Live(r, start, ticks[..k], deliveries);
      if k == 0 {
        TickWithinBudget(r, before, n, ticks[0], ticks[0], deliveries(0));
      } else {
        assert ticks[..k][k - 1] == ticks[k - 1];
        TickWithinBudget(r, before, n, ticks[k - 1], ticks[k], deliveries(k));
      }
    }
  }

  // ---------- Exactly once in every due minute ----------

  /** The due minutes from one minute start to another, in order. */
  function DueSlots(s: Schedule, from: int, till: int): seq<int>
    decreases till - from
  {
    if till < from then [] else DueSlots(s, from, till - 60) + if Matches(s, till) then [till] else []
  }

  lemma {:induction false} InDueSlots(s: Schedule, from: int, till: int, t: int)
    requires from % 60 == 0 && till % 60 == 0
    ensures t in DueSlots(s, from, till) <==> from <= t <= till && t % 60 == 0 && Matches(s, t)
    decreases till - from
  {
    if from <= till {
      InDueSlots(s, from, till - 60, t);
      assert t % 60 == 0 && till - 60 < t <= till ==> t == till;
    }
  }

  /** The list holds exactly the due minutes, each once and in order. */
  lemma {:induction false} DueSlotsMeaning(s: Schedule, from: int, till: int)
    requires from % 60 == 0 && till % 60 == 0
    ensures Increasing(DueSlots(s, from, till))
    ensures forall t :: t in DueSlots(s, from, till) <==> (from <= t <= till && t % 60 == 0 && Matches(s, t))
    decreases till - from
  {
    forall t ensures t in DueSlots(s, from, till) <==> (from <= t <= till && t % 60 == 0 && Matches(s, t)) {
      InDueSlots(s, from, till, t);
    }
    if from <= till {
      DueSlotsMeaning(s, from, till - 60);
      var before := DueSlots(s, from, till - 60);
      assert forall i :: 0 <= i < |before| ==> before[i] in before;
    }
  }

  function AtMost<T>(s: seq<T>, n: Option<int>): seq<T> {
    if n.Some? && n.value < |s| then s[..if n.value < 0 then 0 else n.value] else s
  }

  lemma LaterSlot(a: int, b: int)
    requires a <= b
    ensures Slot(a) <= Slot(b)
  {
  }

  lemma SameMinute(s: Schedule, ts: int)
    ensures Matches(s, Slot(ts)) == Matches(s, ts)
  {
    MatchesMeaning(s, ts);
  }

  // ---------- What any ticks and failures lead to ----------

  /** Nothing switches the reminder off at the start; it may have a record. */
  ghost predicate CanFire(r: Reminder, start: Life) {
    start.present && start.fired == [] && r.enabled && start.state.GetOr(NO_STATE).enabled != Some(false)
  }

  /** The minute of the last delivery on record. */
  function UsedSlot(life: Life): Option<int> {
    match life.state.GetOr(NO_STATE).lastFired
    case None => None
    case Some(t) => Some(Slot(t))
  }

  function LastOf(hits: seq<int>, used: Option<int>): Option<int> {
    if hits == [] then used else Some(hits[|hits| - 1])
  }

  /** One more tick: a due minute whose delivery goes through, unless it is the last one already. */
  function NextHits(s: Schedule, used: Option<int>, hits: seq<int>, now: int, d: Delivery): seq<int> {
    if Matches(s, now) && d.Delivered? && LastOf(hits, used) != Some(Slot(now)) then hits + [Slot(now)] else hits
  }

  /** The minutes in which some tick is due and its delivery goes through, but the one used before the start. */
  function Hits(s: Schedule, used: Option<int>, ticks: seq<int>, deliveries: nat -> Delivery): seq<int> {
    if ticks == [] then []
    else
      var n := |ticks| - 1;
      NextHits(s, used, Hits(s, used, ticks[..n], deliveries), ticks[n], deliveries(n))
  }

  /** Runs are left after these hits, and the record knows the last of them. */
  ghost predicate Going(r: Reminder, life: Life, n: Option<int>, hits: seq<int>, used: Option<int>) {
    && life.present && r.enabled && life.state.GetOr(NO_STATE).enabled != Some(false)
    && Stock(r, life) == (match n case Some(v) => Some(v - |hits|) case None => None)
    && (n.Some? ==> |hits| < n.value)
    && UsedSlot(life) == LastOf(hits, used)
  }

  /** No run is left, or the reminder is gone from the configuration. */
  ghost predicate Done(r: Reminder, life: Life) {
    !life.present || Stock(r, life) == Some(0)
  }

  ghost predicate FiredSoFar(r: Reminder, life: Life, n: Option<int>, hits: seq<int>, used: Option<int>) {
    && Slots(life.fired) == AtMost(hits, n)
    && (if n.Some? && |hits| >= n.value then n.value >= 0 && Done(r, life) else Going(r, life, n, hits, used))
  }

  lemma DoneStays(r: Reminder, life: Life, now: int, d: Delivery)
    requires Done(r, life)
    ensures var next := Tick(r, life, now, d);
      Done(r, next) && next.fired == life.fired && next.present == life.present
  {
  }

  lemma GoingFires(r: Reminder, life: Life, n: Option<int>, hits: seq<int>, used: Option<int>, now: int, d: Delivery)
    requires Going(r, life, n, hits, used)
    ensures var next, hits' := Tick(r, life, now, d), NextHits(r.schedule, used, hits, now, d);
      && next.fired == life.fired + (if hits' == hits then [] else [now])
      && (if n == Some(|hits'|) then Done(r, next) && next.present == (d != Delivered(Removed))
          else Going(r, next, n, hits', used))
  {
  }

  lemma TickFires(r: Reminder, life: Life, n: Option<int>, hits: seq<int>, used: Option<int>, now: int, d: Delivery)
    requires FiredSoFar(r, life, n, hits, used)
    ensures FiredSoFar(r, Tick(r, life, now, d), n, NextHits(r.schedule, used, hits, now, d), used)
  {
    var hits' := NextHits(r.schedule, used, hits, now, d);
    if n.Some? && |hits| >= n.value {
      DoneStays(r, life, now, d);
      assert AtMost(hits', n) == AtMost(hits, n);
    } else {
      GoingFires(r, life, n, hits, used, now, d);
      assert Slots(life.fired + [now]) == Slots(life.fired) + [Slot(now)];
    }
  }

  /** Whatever the ticks and failures, the reminder is delivered exactly in the first n of the minutes in which
      a tick is due and its delivery goes through. */
  lemma {:induction false} FiredIsHits(r: Reminder, start: Life, ticks: seq<int>, deliveries: nat -> Delivery)
    requires CanFire(r, start)
    ensures FiredSoFar(r, Live(r, start, ticks, deliveries), Stock(r, start),
                       Hits(r.schedule, UsedSlot(start), ticks, deliveries), UsedSlot(start))
  {
    if ticks != [] {
      var n := |ticks| - 1;
      FiredIsHits(r, start, ticks[..n], deliveries);
      TickFires(r, Live(r, start, ticks[..n], deliveries), Stock(r, start),
                Hits(r.schedule, UsedSlot(start), ticks[..n], deliveries), UsedSlot(start), ticks[n], deliveries(n));
    }
  }

  /** Some tick in this minute is due and its delivery goes through. */
  ghost predicate IsHit(s: Schedule, ticks: seq<int>, deliveries: nat -> Delivery, slot: int) {
    exists i :: 0 <= i < |ticks| && Slot(ticks[i]) == slot && Matches(s, ticks[i]) && deliveries(i).Delivered?
  }

  ghost predicate StartsAfter(used: Option<int>, ticks: seq<int>) {
    used.Some? && ticks != [] ==> used.value <= Slot(ticks[0])
  }

  lemma IsHitSnoc(s: Schedule, ticks: seq<int>, deliveries: nat -> Delivery, slot: int)
    requires ticks != []
    ensures var n := |ticks| - 1;
      IsHit(s, ticks, deliveries, slot) <==>
      IsHit(s, ticks[..n], deliveries, slot) || (Slot(ticks[n]) == slot && Matches(s, ticks[n]) && deliveries(n).Delivered?)
  {
    var n := |ticks| - 1;
    if IsHit(s, ticks[..n], deliveries, slot) {
      var i :| 0 <= i < n && Slot(ticks[..n][i]) == slot && Matches(s, ticks[..n][i]) && deliveries(i).Delivered?;
      assert Slot(ticks[i]) == slot;
    }
    if IsHit(s, ticks, deliveries, slot) {
      var i :| 0 <= i < |ticks| && Slot(ticks[i]) == slot && Matches(s, ticks[i]) && deliveries(i).Delivered?;
      assert i < n ==> ticks[..n][i] == ticks[i];
    }
  }

  /** All hits lie after the used minute and up to this one. */
  ghost predicate Between(hits: seq<int>, used: Option<int>, ticks: seq<int>) {
    forall x :: x in hits ==> (used.Some? ==> used.value < x) && ticks != [] && x <= Slot(ticks[|ticks| - 1])
  }

  lemma {:induction false} FirstIsEarliest(ticks: seq<int>)
    requires NonDecreasing(ticks) && ticks != []
    ensures ticks[0] <= ticks[|ticks| - 1]
  {
    if |ticks| > 1 {
      FirstIsEarliest(ticks[..|ticks| - 1]);
    }
  }

  /** As long as the clock does not run backwards, the hits are exactly those minutes, each once, in order. */
  lemma {:induction false} HitsMeaning(s: Schedule, used: Option<int>, ticks: seq<int>, deliveries: nat -> Delivery)
    requires NonDecreasing(ticks) && StartsAfter(used, ticks)
    ensures var hits := Hits(s, used, ticks, deliveries);
      && Increasing(hits) && Between(hits, used, ticks)
      && forall x :: x in hits <==> IsHit(s, ticks, deliveries, x) && used != Some(x)
  {
    if ticks != [] {
      var n := |ticks| - 1;
      var before, slot := Hits(s, used, ticks[..n], deliveries), Slot(ticks[n]);
      HitsMeaning(s, used, ticks[..n], deliveries);
      FirstIsEarliest(ticks);
      LaterSlot(ticks[0], ticks[n]);
      if n > 0 {
        LaterSlot(ticks[n - 1], ticks[n]);
      }
      AppendHit(before, used, slot);
      forall x {
        IsHitSnoc(s, ticks, deliveries, x);
      }
    }
  }

  /** A minute not before any hit is new exactly if it is not the last one. */
  lemma AppendHit(hits: seq<int>, used: Option<int>, slot: int)
    requires Increasing(hits) && forall x :: x in hits ==> x <= slot && (used.Some? ==> used.value < x)
    requires used.Some? ==> used.value <= slot
    ensures LastOf(hits, used) != Some(slot) ==>
      Increasing(hits + [slot]) && slot !in hits && used != Some(slot) && (used.Some? ==> used.value < slot)
    ensures LastOf(hits, used) == Some(slot) ==> slot in hits || used == Some(slot)
  {
    if hits != [] {
      var last := hits[|hits| - 1];
      assert last in hits;
      forall x | x in hits && LastOf(hits, used) != Some(slot) ensures x < slot {
        var i :| 0 <= i < |hits| && hits[i] == x;
        assert i < |hits| - 1 ==> x < last;
      }
      assert forall i :: 0 <= i < |hits| ==> hits[i] in hits;
    }
  }

  /** An unlimited reminder misses a minute exactly when no tick that is due in it has its delivery go through. */
  lemma MinuteIsMissedIff(r: Reminder, start: Life, ticks: seq<int>, deliveries: nat -> Delivery, slot: int)
    requires CanFire(r, start) && Stock(r, start) == None && NonDecreasing(ticks) && StartsAfter(UsedSlot(start), ticks)
    requires UsedSlot(start) != Some(slot)
    ensures slot !in Slots(Live(r, start, ticks, deliveries).fired) <==> !IsHit(r.schedule, ticks, deliveries, slot)
  {
    FiredIsHits(r, start, ticks, deliveries);
    HitsMeaning(r.schedule, UsedSlot(start), ticks, deliveries);
  }

  // ---------- When a reminder is removed, and what its record says ----------

  /** The delivery that uses the last of n runs goes through, and the callback then removes the reminder. */
  ghost predicate IsRemovedAt(s: Schedule, used: Option<int>, ticks: seq<int>, deliveries: nat -> Delivery, n: int, i: nat)
    requires i < |ticks|
  {
    && |Hits(s, used, ticks[..i], deliveries)| < n == |Hits(s, used, ticks[..i + 1], deliveries)|
    && deliveries(i) == Delivered(Removed)
  }

  ghost predicate IsRemoved(s: Schedule, used: Option<int>, ticks: seq<int>, deliveries: nat -> Delivery, n: int) {
    exists i: nat :: i < |ticks| && IsRemovedAt(s, used, ticks, deliveries, n, i)
  }

  lemma IsRemovedSnoc(s: Schedule, used: Option<int>, ticks: seq<int>, deliveries: nat -> Delivery, n: int)
    requires ticks != []
    ensures var k := |ticks| - 1;
      IsRemoved(s, used, ticks, deliveries, n) <==>
      IsRemoved(s, used, ticks[..k], deliveries, n) || IsRemovedAt(s, used, ticks, deliveries, n, k)
  {
    var k := |ticks| - 1;
    forall i: nat | i < k
      ensures IsRemovedAt(s, used, ticks[..k], deliveries, n, i) <==> IsRemovedAt(s, used, ticks, deliveries, n, i)
    {
      assert ticks[..k][..i] == ticks[..i] && ticks[..k][..i + 1] == ticks[..i + 1];
    }
  }

  lemma {:induction false} RemovedMeansUsedUp(s: Schedule, used: Option<int>, ticks: seq<int>,
                                              deliveries: nat -> Delivery, n: int)
    requires IsRemoved(s, used, ticks, deliveries, n)
    ensures |Hits(s, used, ticks, deliveries)| >= n
  {
    var k := |ticks| - 1;
    IsRemovedSnoc(s, used, ticks, deliveries, n);
    if IsRemoved(s, used, ticks[..k], deliveries, n) {
      RemovedMeansUsedUp(s, used, ticks[..k], deliveries, n);
    } else {
      assert ticks[..k + 1] == ticks;
    }
  }

  /** A reminder leaves the configuration exactly when the delivery of its last run goes through and the callback
      reports the removal. */
  lemma {:induction false} RemovedIff(r: Reminder, start: Life, ticks: seq<int>, deliveries: nat -> Delivery)
    requires CanFire(r, start)
    ensures !Live(r, start, ticks, deliveries).present <==>
      Stock(r, start).Some? && IsRemoved(r.schedule, UsedSlot(start), ticks, deliveries, Stock(r, start).value)
  {
    if ticks != [] {
      var k, n, used := |ticks| - 1, Stock(r, start), UsedSlot(start);
      var before, hits := Live(r, start, ticks[..k], deliveries), Hits(r.schedule, used, ticks[..k], deliveries);
      RemovedIff(r, start, ticks[..k], deliveries);
      FiredIsHits(r, start, ticks[..k], deliveries);
      assert ticks[..k + 1] == ticks;
      if n.Some? {
        IsRemovedSnoc(r.schedule, used, ticks, deliveries, n.value);
      }
      if n.Some? && |hits| >= n.value {
        DoneStays(r, before, ticks[k], deliveries(k));
      } else {
        GoingFires(r, before, n, hits, used, ticks[k], deliveries(k));
        OneHitMore(r.schedule, used, hits, ticks[k], deliveries(k));
      }
    }
  }

  lemma OneHitMore(s: Schedule, used: Option<int>, hits: seq<int>, now: int, d: Delivery)
    ensures var hits' := NextHits(s, used, hits, now, d); hits' == hits || (|hits'| == |hits| + 1 && d.Delivered?)
  {
  }

  /** A reminder that is gone or switched off, in its configuration or its record, is never delivered or removed. */
  ghost predicate IsOff(r: Reminder, life: Life) {
    !life.present || !r.enabled || life.state.GetOr(NO_STATE).enabled == Some(false)
  }

  lemma TickWhenOff(r: Reminder, life: Life, now: int, d: Delivery)
    requires IsOff(r, life)
    ensures var next := Tick(r, life, now, d); IsOff(r, next) && next.fired == life.fired && next.present == life.present
  {
  }

  lemma {:induction false} OffStaysSilent(r: Reminder, start: Life, ticks: seq<int>, deliveries: nat -> Delivery)
    requires IsOff(r, start)
    ensures var life := Live(r, start, ticks, deliveries);
      IsOff(r, life) && life.fired == start.fired && life.present == start.present
  {
    if ticks != [] {
      var n := |ticks| - 1;
      OffStaysSilent(r, start, ticks[..n], deliveries);
      TickWhenOff(r, Live(r, start, ticks[..n], deliveries), ticks[n], deliveries(n));
    }
  }

  /** After every tick the record of an enabled reminder tells the least due minute still to come. */
  lemma RecordTellsNextFire(r: Reminder, start: Life, ticks: seq<int>, deliveries: nat -> Delivery)
    requires r.enabled && ticks != []
    ensures var life := Live(r, start, ticks, deliveries);
      life.present ==> life.state.Some? && IsNextFire(r.schedule, ticks[|ticks| - 1], life.state.value.nextFire)
  {
    NextFireIsLeast(r.schedule, ticks[|ticks| - 1]);
  }

  // ---------- Regular ticks ----------

  ghost predicate CanStart(r: Reminder, start: Life, now: int) {
    CanFire(r, start) && (var last := start.state.GetOr(NO_STATE).lastFired; last.Some? ==> last.value <= now)
  }

  /** The first minute still open: the current one unless it was already used. */
  function FirstSlot(start: Life, now: int): int {
    if UsedSlot(start) == Some(Slot(now)) then Slot(now) + 60 else Slot(now)
  }

  ghost predicate Regular(r: Reminder, start: Life, ticks: seq<int>, deliveries: nat -> Delivery) {
    && ticks != [] && Dense(ticks) && CanStart(r, start, ticks[0])
    && forall i :: 0 <= i < |ticks| ==> deliveries(i).Delivered?
  }

  /** Ticks at most a minute apart leave no minute out. */
  lemma {:induction false} EveryMinuteIsTicked(ticks: seq<int>, slot: int) returns (i: nat)
    requires ticks != [] && Dense(ticks) && slot % 60 == 0 && Slot(ticks[0]) <= slot <= Slot(ticks[|ticks| - 1])
    ensures i < |ticks| && Slot(ticks[i]) == slot
  {
    var n := |ticks| - 1;
    if Slot(ticks[n]) == slot {
      i := n;
    } else {
      assert n > 0 && slot <= Slot(ticks[n - 1]) by {
        assert n > 0 ==> ticks[n] <= ticks[n - 1] + 60;
      }
      i := EveryMinuteIsTicked(ticks[..n], slot);
    }
  }

  lemma {:induction false} IncreasingIsUnique(a: seq<int>, b: seq<int>)
    requires Increasing(a) && Increasing(b) && forall x :: x in a <==> x in b
    ensures a == b
  {
    if b != [] {
      assert b[|b| - 1] in b && b[|b| - 1] in a;
    }
    if a != [] {
      var x := a[|a| - 1];
      assert x in a && x in b;
      var y := b[|b| - 1];
      var a', b' := a[..|a| - 1], b[..|b| - 1];
      LastIsLargest(a);
      LastIsLargest(b);
      assert x == y;
      forall z ensures z in a' <==> z in b' {
        assert z in a' <==> z in a && z != x;
        assert z in b' <==> z in b && z != y;
      }
      IncreasingIsUnique(a', b');
      assert a == a' + [x] && b == b' + [y];
    }
  }

  lemma LastIsLargest(s: seq<int>)
    requires s != [] && Increasing(s)
    ensures forall x :: x in s ==> x <= s[|s| - 1]
    ensures forall x :: x in s[..|s| - 1] <==> x in s && x != s[|s| - 1]
  {
    var n := |s| - 1;
    assert s == s[..n] + [s[n]];
    forall x | x in s[..n] ensures x < s[n] {
      var i :| 0 <= i < n && s[..n][i] == x;
      assert s[i] < s[n];
    }
  }

  lemma FirstSlotFacts(start: Life, now: int, slot: int)
    requires UsedSlot(start).Some? ==> UsedSlot(start).value <= Slot(now)
    ensures FirstSlot(start, now) % 60 == 0 && Slot(slot) % 60 == 0
    ensures slot % 60 == 0 ==> (FirstSlot(start, now) <= slot <==> Slot(now) <= slot && UsedSlot(start) != Some(slot))
  {
  }

  lemma HitIsDue(s: Schedule, ticks: seq<int>, deliveries: nat -> Delivery, slot: int)
    requires NonDecreasing(ticks) && IsHit(s, ticks, deliveries, slot)
    ensures ticks != [] && Slot(ticks[0]) <= slot <= Slot(ticks[|ticks| - 1]) && slot % 60 == 0 && Matches(s, slot)
  {
    var i :| 0 <= i < |ticks| && Slot(ticks[i]) == slot && Matches(s, ticks[i]) && deliveries(i).Delivered?;
    SameMinute(s, ticks[i]);
    TickIsBetween(ticks, i);
    SlotIsMinute(ticks[i]);
  }

  lemma SlotIsMinute(ts: int)
    ensures Slot(ts) % 60 == 0
  {
  }

  lemma DueIsHit(s: Schedule, ticks: seq<int>, deliveries: nat -> Delivery, slot: int)
    requires ticks != [] && Dense(ticks) && forall i :: 0 <= i < |ticks| ==> deliveries(i).Delivered?
    requires Slot(ticks[0]) <= slot <= Slot(ticks[|ticks| - 1]) && slot % 60 == 0 && Matches(s, slot)
    ensures IsHit(s, ticks, deliveries, slot)
  {
    var i := EveryMinuteIsTicked(ticks, slot);
    SameMinute(s, ticks[i]);
  }

  lemma HitWhenDue(r: Reminder, start: Life, ticks: seq<int>, deliveries: nat -> Delivery, slot: int)
    requires Regular(r, start, ticks, deliveries)
    ensures IsHit(r.schedule, ticks, deliveries, slot) && UsedSlot(start) != Some(slot) <==>
      FirstSlot(start, ticks[0]) <= slot <= Slot(ticks[|ticks| - 1]) && slot % 60 == 0 && Matches(r.schedule, slot)
  {
    UsedIsPast(start, ticks[0]);
    FirstSlotFacts(start, ticks[0], slot);
    if IsHit(r.schedule, ticks, deliveries, slot) {
      HitIsDue(r.schedule, ticks, deliveries, slot);
    } else if Slot(ticks[0]) <= slot <= Slot(ticks[|ticks| - 1]) && slot % 60 == 0 && Matches(r.schedule, slot) {
      DueIsHit(r.schedule, ticks, deliveries, slot);
    }
  }

  lemma UsedIsPast(start: Life, now: int)
    requires var last := start.state.GetOr(NO_STATE).lastFired; last.Some? ==> last.value <= now
    ensures UsedSlot(start).Some? ==> UsedSlot(start).value <= Slot(now)
  {
    var last := start.state.GetOr(NO_STATE).lastFired;
    if last.Some? {
      LaterSlot(last.value, now);
    }
  }

  lemma {:induction false} TickIsBetween(ticks: seq<int>, i: nat)
    requires NonDecreasing(ticks) && i < |ticks|
    ensures Slot(ticks[0]) <= Slot(ticks[i]) <= Slot(ticks[|ticks| - 1])
  {
    FirstIsEarliest(ticks[..i + 1]);
    LaterSlot(ticks[0], ticks[i]);
    if i < |ticks| - 1 {
      TickIsBetween(ticks[..|ticks| - 1], i);
      LaterSlot(ticks[|ticks| - 2], ticks[|ticks| - 1]);
    }
  }

  /** With ticks at most a minute apart and deliveries that succeed, the reminder is delivered exactly
      once in each of the first n due minutes from the first tick to the last, and at no other time. */
  lemma ExactlyOnce(r: Reminder, start: Life, ticks: seq<int>, deliveries: nat -> Delivery)
    requires Regular(r, start, ticks, deliveries)
    ensures Slots(Live(r, start, ticks, deliveries).fired)
         == AtMost(DueSlots(r.schedule, FirstSlot(start, ticks[0]), Slot(ticks[|ticks| - 1])), Stock(r, start))
  {
    FiredIsHits(r, start, ticks, deliveries);
    HitsAreDue(r, start, ticks, deliveries);
  }

  /** With regular ticks the hits are the due minutes. */
  lemma HitsAreDue(r: Reminder, start: Life, ticks: seq<int>, deliveries: nat -> Delivery)
    requires Regular(r, start, ticks, deliveries)
    ensures Hits(r.schedule, UsedSlot(start), ticks, deliveries)
         == DueSlots(r.schedule, FirstSlot(start, ticks[0]), Slot(ticks[|ticks| - 1]))
  {
    var from, last := FirstSlot(start, ticks[0]), ticks[|ticks| - 1];
    var hits, due := Hits(r.schedule, UsedSlot(start), ticks, deliveries), DueSlots(r.schedule, from, Slot(last));
    UsedIsPast(start, ticks[0]);
    FirstSlotFacts(start, ticks[0], last);
    HitsMeaning(r.schedule, UsedSlot(start), ticks, deliveries);
    DueSlotsMeaning(r.schedule, from, Slot(last));
    forall x ensures x in hits <==> x in due {
      HitWhenDue(r, start, ticks, deliveries, x);
    }
    IncreasingIsUnique(hits, due);
  }

  // ---------- Why the configuration must be reloaded ----------

  /** A reminder that a configuration lists and that has no record yet. */
  const FRESH := Life(true, None, [])

  /** Earlier deliveries, put in front. */
  function After(earlier: seq<int>, life: Life): Life {
    life.(fired := earlier + life.fired)
  }

  lemma TickAfter(r: Reminder, earlier: seq<int>, life: Life, now: int, d: Delivery)
    ensures Tick(r, After(earlier, life), now, d) == After(earlier, Tick(r, life, now, d))
  {
    assert (earlier + life.fired) + [now] == earlier + (life.fired + [now]);
  }

  lemma {:induction false} LiveAfter(r: Reminder, earlier: seq<int>, start: Life, ticks: seq<int>, deliveries: nat -> Delivery)
    ensures Live(r, After(earlier, start), ticks, deliveries) == After(earlier, Live(r, start, ticks, deliveries))
  {
    if ticks != [] {
      var n := |ticks| - 1;
      LiveAfter(r, earlier, start, ticks[..n], deliveries);
      TickAfter(r, earlier, Live(r, start, ticks[..n], deliveries), ticks[n], deliveries(n));
    }
  }

  lemma {:induction false} GoneStays(r: Reminder, gone: Life, ticks: seq<int>, deliveries: nat -> Delivery)
    requires !gone.present
    ensures Live(r, gone, ticks, deliveries) == gone
  {
    if ticks != [] {
      GoneStays(r, gone, ticks[..|ticks| - 1], deliveries);
    }
  }

  /** Some tick is in a due minute and its delivery goes through. */
  ghost predicate SomeDelivery(s: Schedule, ticks: seq<int>, deliveries: nat -> Delivery) {
    exists i :: 0 <= i < |ticks| && Matches(s, ticks[i]) && deliveries(i).Delivered?
  }

  lemma {:induction false} SomeHitIff(s: Schedule, ticks: seq<int>, deliveries: nat -> Delivery)
    ensures Hits(s, None, ticks, deliveries) != [] <==> SomeDelivery(s, ticks, deliveries)
  {
    if ticks != [] {
      var n := |ticks| - 1;
      SomeHitIff(s, ticks[..n], deliveries);
      assert SomeDelivery(s, ticks, deliveries) <==>
        SomeDelivery(s, ticks[..n], deliveries) || (Matches(s, ticks[n]) && deliveries(n).Delivered?);
    }
  }

  /** A removed reminder stays silent. Where the configuration is not reloaded and still lists it, it starts
      over, as its record is gone: its n runs, all used, are exceeded if and only if a delivery goes through in
      a due minute, and what follows are deliveries in the first n of those minutes. */
  lemma StaleConfigurationRefires(r: Reminder, spent: Life, n: nat, ticks: seq<int>, deliveries: nat -> Delivery)
    requires r.enabled && r.schedule.remainingRuns == Some(n)
    requires !spent.present && spent.state.None? && |spent.fired| == n
    ensures Live(r, spent, ticks, deliveries) == spent
    ensures var stale := Live(r, spent.(present := true), ticks, deliveries);
      && (|stale.fired| <= n <==> !SomeDelivery(r.schedule, ticks, deliveries))
      && Slots(stale.fired) == Slots(spent.fired) + AtMost(Hits(r.schedule, None, ticks, deliveries), Some(n))
      && |stale.fired| <= n + n
  {
    var anew := Live(r, FRESH, ticks, deliveries);
    GoneStays(r, spent, ticks, deliveries);
    assert After(spent.fired, FRESH) == spent.(present := true);
    LiveAfter(r, spent.fired, FRESH, ticks, deliveries);
    FiredIsHits(r, FRESH, ticks, deliveries);
    SomeHitIff(r.schedule, ticks, deliveries);
    assert Slots(spent.fired + anew.fired) == Slots(spent.fired) + Slots(anew.fired);
    assert |Slots(anew.fired)| == |anew.fired|;
  }
}
