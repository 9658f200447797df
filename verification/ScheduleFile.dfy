/** A tenant's schedule file: three generations of sections merged into one task list, and the
    operations that edit it. */
module ScheduleFile {
  import opened Text

  datatype Kind = InternalRun | TelegramMessage

  datatype Task = Task(taskId: string, kind: Kind, body: string, createdAt: Option<int>)

  /** An entry of the current section. */
  datatype RawTask = NotADict | Dict(task: Task)

  /** An entry of a legacy section; jobs have one id field, reminders may use either of two. */
  datatype Legacy = NotALegacyDict | LegacyDict(id: string, otherId: string, body: string, createdAt: Option<int>)

  datatype RawFile = RawFile(scheduledTasks: seq<RawTask>, jobs: seq<Legacy>, reminders: seq<Legacy>)

  // ---------- Normalisation ----------

  /** The ids in use, trimmed. */
  ghost function Ids(tasks: seq<Task>): set<string> {
    set t | t in tasks :: Strip(t.taskId)
  }

  ghost predicate HasId(tasks: seq<Task>, id: string) {
    id in Ids(tasks)
  }

  lemma IdsSnoc(tasks: seq<Task>, t: Task)
    ensures Ids(tasks + [t]) == Ids(tasks) + {Strip(t.taskId)}
  {
    assert forall x :: x in tasks + [t] <==> x in tasks || x == t;
    assert forall id :: id in Ids(tasks) ==> id in Ids(tasks + [t]);
    assert t in tasks + [t];
  }

  /** The task an entry of each section stands for. */
  function JobTask(x: Legacy): Option<Task> {
    match x
    case NotALegacyDict => None
    case LegacyDict(id, _, body, _) => Some(Task(Strip(id), InternalRun, body, None))
  }

  function ReminderTask(x: Legacy): Option<Task> {
    match x
    case NotALegacyDict => None
    case LegacyDict(id, otherId, body, createdAt) =>
      Some(Task(Strip(if id != "" then id else otherId), TelegramMessage, body, createdAt))
  }

  function CurrentTask(x: RawTask): Option<Task> {
    match x case NotADict => None case Dict(t) => Some(t)
  }

  /** All entries in the order in which they are considered. */
  function AllEntries(raw: RawFile): seq<Option<Task>> {
    Mapped(CurrentTask, raw.scheduledTasks) + Mapped(JobTask, raw.jobs) + Mapped(ReminderTask, raw.reminders)
  }

  function Mapped<T>(f: T -> Option<Task>, section: seq<T>): (r: seq<Option<Task>>)
    ensures |r| == |section| && forall i :: 0 <= i < |section| ==> r[i] == f(section[i])
  {
    seq(|section|, i requires 0 <= i < |section| => f(section[i]))
  }

  /** The first entry of every non-blank trimmed id. */
  ghost function FirstOfEachId(entries: seq<Option<Task>>): seq<Task> {
    if entries == [] then []
    else
      var before, last := FirstOfEachId(entries[..|entries| - 1]), entries[|entries| - 1];
      if last.Some? && Strip(last.value.taskId) != "" && !HasId(before, Strip(last.value.taskId))
      then before + [last.value] else before
  }

  ghost function Normalized(raw: RawFile): seq<Task> { FirstOfEachId(AllEntries(raw)) }

  ghost predicate UniqueIds(tasks: seq<Task>) {
    && (forall i :: 0 <= i < |tasks| ==> Strip(tasks[i].taskId) != "")
    && (forall i, j :: 0 <= i < j < |tasks| ==> Strip(tasks[i].taskId) != Strip(tasks[j].taskId))
  }

  lemma FirstSnoc(entries: seq<Option<Task>>, x: Option<Task>)
    ensures var before := FirstOfEachId(entries);
      FirstOfEachId(entries + [x]) ==
      if x.Some? && Strip(x.value.taskId) != "" && !HasId(before, Strip(x.value.taskId))
      then before + [x.value] else before
  {
    assert (entries + [x])[..|entries|] == entries;
  }

  lemma {:induction false} NormalizedIsUnique(entries: seq<Option<Task>>)
    ensures UniqueIds(FirstOfEachId(entries))
  {
    if entries != [] {
      NormalizedIsUnique(entries[..|entries| - 1]);
    }
  }

  /** What a written document reads as. */
  function Dump(tasks: seq<Task>): RawFile {
    RawFile(seq(|tasks|, i requires 0 <= i < |tasks| => Dict(tasks[i])), [], [])
  }

  function Entries(tasks: seq<Task>): (r: seq<Option<Task>>)
    ensures |r| == |tasks| && forall i :: 0 <= i < |tasks| ==> r[i] == Some(tasks[i])
  {
    seq(|tasks|, i requires 0 <= i < |tasks| => Some(tasks[i]))
  }

  lemma DumpEntries(tasks: seq<Task>)
    ensures AllEntries(Dump(tasks)) == Entries(tasks)
  {
  }

  lemma LastIdIsNew(tasks: seq<Task>, last: Task)
    requires UniqueIds(tasks + [last])
    ensures UniqueIds(tasks) && Strip(last.taskId) != "" && !HasId(tasks, Strip(last.taskId))
  {
    var all := tasks + [last];
    assert all[|tasks|] == last;
    assert forall i :: 0 <= i < |tasks| ==> all[i] == tasks[i];
  }

  lemma {:induction false} UniqueIsKept(tasks: seq<Task>)
    requires UniqueIds(tasks)
    ensures FirstOfEachId(Entries(tasks)) == tasks
  {
    if tasks != [] {
      var n := |tasks| - 1;
      var before, last := tasks[..n], tasks[n];
      assert tasks == before + [last];
      LastIdIsNew(before, last);
      UniqueIsKept(before);
      assert Entries(tasks) == Entries(before) + [Some(last)];
      FirstSnoc(Entries(before), Some(last));
    }
  }

  /** Normalising a written document changes nothing: normalisation is idempotent. */
  lemma NormalizeIsIdempotent(raw: RawFile)
    ensures Normalized(Dump(Normalized(raw))) == Normalized(raw) && UniqueIds(Normalized(raw))
  {
    NormalizedIsUnique(AllEntries(raw));
    DumpEntries(Normalized(raw));
    UniqueIsKept(Normalized(raw));
  }

  // ---------- What a file with sections of all generations holds ----------

  ghost predicate Names(entries: seq<Option<Task>>, id: string) {
    exists i :: 0 <= i < |entries| && entries[i].Some? && Strip(entries[i].value.taskId) == id
  }

  /** The task is the first entry of its id. */
  ghost predicate IsFirst(entries: seq<Option<Task>>, t: Task) {
    exists i :: 0 <= i < |entries| && entries[i] == Some(t) && !Names(entries[..i], Strip(t.taskId))
  }

  lemma NamesConcat(a: seq<Option<Task>>, b: seq<Option<Task>>, id: string)
    ensures Names(a + b, id) <==> Names(a, id) || Names(b, id)
  {
    if i :| 0 <= i < |a| && a[i].Some? && Strip(a[i].value.taskId) == id {
      assert (a + b)[i] == a[i];
    }
    if i :| 0 <= i < |b| && b[i].Some? && Strip(b[i].value.taskId) == id {
      assert (a + b)[|a| + i] == b[i];
    }
  }

  lemma FirstInConcat(a: seq<Option<Task>>, b: seq<Option<Task>>, t: Task)
    requires IsFirst(a + b, t)
    ensures IsFirst(a, t) || (IsFirst(b, t) && !Names(a, Strip(t.taskId)))
  {
    var i :| 0 <= i < |a + b| && (a + b)[i] == Some(t) && !Names((a + b)[..i], Strip(t.taskId));
    if i < |a| {
      assert (a + b)[..i] == a[..i];
    } else {
      assert (a + b)[..i] == a + b[..i - |a|];
      NamesConcat(a, b[..i - |a|], Strip(t.taskId));
    }
  }

  lemma {:induction false} HeldTasks(entries: seq<Option<Task>>)
    ensures forall id :: HasId(FirstOfEachId(entries), id) <==> id != "" && Names(entries, id)
    ensures forall t :: t in FirstOfEachId(entries) ==> IsFirst(entries, t)
  {
    if entries != [] {
      var n := |entries| - 1;
      var before, last := entries[..n], entries[n];
      HeldTasks(before);
      assert entries == before + [last];
      forall id {
        NamesConcat(before, [last], id);
      }
      forall t | t in FirstOfEachId(entries) ensures IsFirst(entries, t) {
        FirstSnocIsFirst(before, last, t);
      }
      if last.Some? {
        IdsSnoc(FirstOfEachId(before), last.value);
      }
    }
  }

  lemma FirstSnocIsFirst(before: seq<Option<Task>>, last: Option<Task>, t: Task)
    requires IsFirst(before, t) || (last == Some(t) && !Names(before, Strip(t.taskId)))
    ensures IsFirst(before + [last], t)
  {
    var all := before + [last];
    if IsFirst(before, t) {
      var i :| 0 <= i < |before| && before[i] == Some(t) && !Names(before[..i], Strip(t.taskId));
      assert all[i] == Some(t) && all[..i] == before[..i];
    } else {
      assert all[|before|] == Some(t) && all[..|before|] == before;
    }
  }

  ghost predicate CurrentHas(raw: RawFile, id: string) {
    exists x :: x in raw.scheduledTasks && x.Dict? && Strip(x.task.taskId) == id
  }

  ghost predicate JobsHave(raw: RawFile, id: string) {
    exists x :: x in raw.jobs && x.LegacyDict? && Strip(x.id) == id
  }

  ghost predicate RemindersHave(raw: RawFile, id: string) {
    exists x :: x in raw.reminders && x.LegacyDict? && Strip(if x.id != "" then x.id else x.otherId) == id
  }

  lemma MappedNames<T>(f: T -> Option<Task>, section: seq<T>, id: string)
    ensures Names(Mapped(f, section), id) <==> exists x :: x in section && f(x).Some? && Strip(f(x).value.taskId) == id
  {
    var entries := Mapped(f, section);
    if i :| 0 <= i < |entries| && entries[i].Some? && Strip(entries[i].value.taskId) == id {
      assert section[i] in section;
    }
    if x :| x in section && f(x).Some? && Strip(f(x).value.taskId) == id {
      var i :| 0 <= i < |section| && section[i] == x;
      assert entries[i] == f(x);
    }
  }

  lemma SectionNames(raw: RawFile, id: string)
    ensures Names(Mapped(CurrentTask, raw.scheduledTasks), id) <==> CurrentHas(raw, id)
    ensures Names(Mapped(JobTask, raw.jobs), id) <==> JobsHave(raw, id)
    ensures Names(Mapped(ReminderTask, raw.reminders), id) <==> RemindersHave(raw, id)
  {
    MappedNames(CurrentTask, raw.scheduledTasks, id);
    MappedNames(JobTask, raw.jobs, id);
    MappedNames(ReminderTask, raw.reminders, id);
    forall x: Legacy | x.LegacyDict?
      ensures Strip(JobTask(x).value.taskId) == Strip(x.id)
      ensures Strip(ReminderTask(x).value.taskId) == Strip(if x.id != "" then x.id else x.otherId)
    {
      StripIdempotent(x.id);
      StripIdempotent(x.otherId);
    }
  }

  /** A task of the current section as it is, of a legacy job as a recurring run under its trimmed id, of a legacy
      reminder as a message under its trimmed id, whichever of the two fields holds it. */
  ghost predicate ComesFrom(raw: RawFile, t: Task) {
    var id := Strip(t.taskId);
    if CurrentHas(raw, id) then Dict(t) in raw.scheduledTasks
    else if JobsHave(raw, id) then
      exists x :: x in raw.jobs && x.LegacyDict? && t == Task(Strip(x.id), InternalRun, x.body, None)
    else
      exists x :: x in raw.reminders && x.LegacyDict? &&
        t == Task(Strip(if x.id != "" then x.id else x.otherId), TelegramMessage, x.body, x.createdAt)
  }

  /** Every id named in any section of the file is held, and by the section that comes first: the current one,
      then the legacy jobs, then the legacy reminders. */
  lemma SectionsAreMerged(raw: RawFile)
    ensures forall id :: HasId(Normalized(raw), id) <==>
      id != "" && (CurrentHas(raw, id) || JobsHave(raw, id) || RemindersHave(raw, id))
    ensures forall t :: t in Normalized(raw) ==> ComesFrom(raw, t)
  {
    var a, b, c := Mapped(CurrentTask, raw.scheduledTasks), Mapped(JobTask, raw.jobs), Mapped(ReminderTask, raw.reminders);
    HeldTasks(AllEntries(raw));
    forall id ensures Names(AllEntries(raw), id) <==> CurrentHas(raw, id) || JobsHave(raw, id) || RemindersHave(raw, id) {
      NamesConcat(a + b, c, id);
      NamesConcat(a, b, id);
      SectionNames(raw, id);
    }
    forall t | t in Normalized(raw) ensures ComesFrom(raw, t) {
      FirstComesFrom(raw, t);
    }
  }

  lemma FirstComesFrom(raw: RawFile, t: Task)
    requires IsFirst(AllEntries(raw), t)
    ensures ComesFrom(raw, t)
  {
    var a, b, c := Mapped(CurrentTask, raw.scheduledTasks), Mapped(JobTask, raw.jobs), Mapped(ReminderTask, raw.reminders);
    var id := Strip(t.taskId);
    FirstInConcat(a + b, c, t);
    if IsFirst(a + b, t) {
      FirstInConcat(a, b, t);
    }
    NamesConcat(a, b, id);
    SectionNames(raw, id);
    FirstIsNamed(a, t);
    FirstIsNamed(b, t);
    if IsFirst(a, t) {
      var i :| 0 <= i < |a| && a[i] == Some(t);
      assert raw.scheduledTasks[i] in raw.scheduledTasks;
    } else if IsFirst(b, t) {
      var i :| 0 <= i < |b| && b[i] == Some(t);
      assert raw.jobs[i] in raw.jobs;
    } else {
      var i :| 0 <= i < |c| && c[i] == Some(t);
      assert raw.reminders[i] in raw.reminders;
    }
  }

  lemma FirstIsNamed(entries: seq<Option<Task>>, t: Task)
    ensures IsFirst(entries, t) ==> Names(entries, Strip(t.taskId))
  {
  }

  /** One entry of the merge: kept unless its id is blank or already taken. */
  method Consider(out0: seq<Task>, seen0: set<string>, entry: Option<Task>, ghost before: seq<Option<Task>>)
    returns (out: seq<Task>, seen: set<string>)
    requires seen0 == Ids(out0) && out0 == FirstOfEachId(before)
    ensures seen == Ids(out) && out == FirstOfEachId(before + [entry])
  {
    out, seen := out0, seen0;
    FirstSnoc(before, entry);
    if entry.Some? {
      var id := Strip(entry.value.taskId);
      if id != "" && id !in seen {
        seen := seen + {id};
        out := out + [entry.value];
        IdsSnoc(out0, entry.value);
      }
    }
  }

  /** One section of the file, in order. */
  method MergeSection<T>(out0: seq<Task>, seen0: set<string>, asTask: T -> Option<Task>, section: seq<T>,
                         ghost before: seq<Option<Task>>)
    returns (out: seq<Task>, seen: set<string>)
    requires seen0 == Ids(out0) && out0 == FirstOfEachId(before)
    ensures seen == Ids(out) && out == FirstOfEachId(before + Mapped(asTask, section))
  {
    out, seen := out0, seen0;
    ghost var entries := Mapped(asTask, section);
    assert before + entries[..0] == before;
    for i := 0 to |section|
      invariant seen == Ids(out) && out == FirstOfEachId(before + entries[..i])
    {
      var entry := asTask(section[i]);
      assert before + entries[..i + 1] == (before + entries[..i]) + [entry];
      out, seen := Consider(out, seen, entry, before + entries[..i]);
    }
    assert entries[..|section|] == entries;
  }

  /** Merges the current section, the legacy jobs and the legacy reminders, in this order. */
  method NormalizeLegacySchedules(raw: RawFile) returns (out: seq<Task>)
    ensures out == Normalized(raw) && UniqueIds(out)
  {
    ghost var a, b := Mapped(CurrentTask, raw.scheduledTasks), Mapped(JobTask, raw.jobs);
    var seen;
    out, seen := MergeSection([], {}, CurrentTask, raw.scheduledTasks, []);
    assert [] + a == a;
    out, seen := MergeSection(out, seen, JobTask, raw.jobs, a);
    out, seen := MergeSection(out, seen, ReminderTask, raw.reminders, a + b);
    NormalizedIsUnique(AllEntries(raw));
  }

  // ---------- Editing ----------

  /** Is this the task that an update of the kind and id replaces? The stored id is compared as it is. */
  predicate IsTarget(t: Task, kind: Kind, id: string) {
    t.kind == kind && t.taskId == id
  }

  function WithoutTarget(tasks: seq<Task>, kind: Kind, id: string): seq<Task> {
    if tasks == [] then []
    else
      var last := tasks[|tasks| - 1];
      WithoutTarget(tasks[..|tasks| - 1], kind, id) + if IsTarget(last, kind, id) then [] else [last]
  }

  function WithoutId(tasks: seq<Task>, id: string): seq<Task> {
    if tasks == [] then []
    else
      var last := tasks[|tasks| - 1];
      WithoutId(tasks[..|tasks| - 1], id) + if Strip(last.taskId) == id then [] else [last]
  }

  /** The tasks that a deletion of this id keeps, and whether it finds one to delete. */
  ghost predicate IsKept(tasks: seq<Task>, id: string, kept: seq<Task>, isDeleted: bool) {
    && kept == WithoutId(tasks, id) && (isDeleted <==> HasId(tasks, id))
    && (!isDeleted ==> kept == tasks)
  }

  lemma KeptSnoc(tasks: seq<Task>, t: Task, id: string, kept: seq<Task>, isDeleted: bool)
    requires IsKept(tasks, id, kept, isDeleted)
    ensures if Strip(t.taskId) == id then IsKept(tasks + [t], id, kept, true)
            else IsKept(tasks + [t], id, kept + [t], isDeleted)
  {
    assert (tasks + [t])[..|tasks|] == tasks;
    IdsSnoc(tasks, t);
  }

  /** A task that would keep the id taken: of the other kind, or stored with blanks around its id. */
  ghost predicate Clashes(tasks: seq<Task>, kind: Kind, id: string) {
    exists t :: t in tasks && Strip(t.taskId) == id && !IsTarget(t, kind, id)
  }

  lemma {:induction false} WithoutTargetFacts(tasks: seq<Task>, kind: Kind, id: string)
    requires UniqueIds(tasks)
    ensures UniqueIds(WithoutTarget(tasks, kind, id))
    ensures forall t :: t in WithoutTarget(tasks, kind, id) <==> t in tasks && !IsTarget(t, kind, id)
  {
    if tasks != [] {
      var before, last := tasks[..|tasks| - 1], tasks[|tasks| - 1];
      assert tasks == before + [last];
      LastIdIsNew(before, last);
      WithoutTargetFacts(before, kind, id);
      IdsShrink(WithoutTarget(before, kind, id), before);
      AppendNewId(WithoutTarget(before, kind, id), last);
    }
  }

  lemma {:induction false} WithoutIdFacts(tasks: seq<Task>, id: string)
    requires UniqueIds(tasks)
    ensures UniqueIds(WithoutId(tasks, id))
    ensures forall t :: t in WithoutId(tasks, id) <==> t in tasks && Strip(t.taskId) != id
  {
    if tasks != [] {
      var before, last := tasks[..|tasks| - 1], tasks[|tasks| - 1];
      assert tasks == before + [last];
      LastIdIsNew(before, last);
      WithoutIdFacts(before, id);
      IdsShrink(WithoutId(before, id), before);
      AppendNewId(WithoutId(before, id), last);
    }
  }

  lemma IdsShrink(some: seq<Task>, all: seq<Task>)
    requires forall t :: t in some ==> t in all
    ensures Ids(some) <= Ids(all)
  {
  }

  lemma AppendNewId(tasks: seq<Task>, last: Task)
    requires UniqueIds(tasks) && Strip(last.taskId) != "" && !HasId(tasks, Strip(last.taskId))
    ensures UniqueIds(tasks + [last])
  {
    forall i | 0 <= i < |tasks| ensures Strip(tasks[i].taskId) != Strip(last.taskId) {
      assert tasks[i] in tasks;
    }
  }

  /** What is loaded after an update was written: the other tasks unchanged and in order, then the new
      one, which is lost exactly when another task keeps its id taken. */
  lemma UpdateThenLoad(tasks: seq<Task>, task: Task)
    requires UniqueIds(tasks) && Strip(task.taskId) == task.taskId != ""
    ensures var kept := WithoutTarget(tasks, task.kind, task.taskId);
      Normalized(Dump(kept + [task])) == kept + if Clashes(tasks, task.kind, task.taskId) then [] else [task]
  {
    var kept := WithoutTarget(tasks, task.kind, task.taskId);
    WithoutTargetFacts(tasks, task.kind, task.taskId);
    DumpEntries(kept + [task]);
    EntriesSnoc(kept, task);
    UniqueIsKept(kept);
    FirstSnoc(Entries(kept), Some(task));
    ClashIsKept(tasks, task.kind, task.taskId);
  }

  lemma EntriesSnoc(tasks: seq<Task>, t: Task)
    ensures Entries(tasks + [t]) == Entries(tasks) + [Some(t)]
  {
  }

  lemma ClashIsKept(tasks: seq<Task>, kind: Kind, id: string)
    requires UniqueIds(tasks)
    ensures HasId(WithoutTarget(tasks, kind, id), id) <==> Clashes(tasks, kind, id)
  {
    WithoutTargetFacts(tasks, kind, id);
  }

  /** After an update and a reload the new task is there, once, if and only if no other task keeps its id
      taken, and the other tasks are the ones there were. */
  lemma UpdatedTaskIsHeldOnce(tasks: seq<Task>, task: Task)
    requires UniqueIds(tasks) && Strip(task.taskId) == task.taskId != ""
    ensures var loaded := Normalized(Dump(WithoutTarget(tasks, task.kind, task.taskId) + [task]));
      && UniqueIds(loaded)
      && (task in loaded <==> !Clashes(tasks, task.kind, task.taskId))
      && (forall t :: !IsTarget(t, task.kind, task.taskId) ==> (t in loaded <==> t in tasks))
      && (forall t :: t in loaded && IsTarget(t, task.kind, task.taskId) ==> t == task)
  {
    UpdateThenLoad(tasks, task);
    WithoutTargetFacts(tasks, task.kind, task.taskId);
    NormalizedIsUnique(AllEntries(Dump(WithoutTarget(tasks, task.kind, task.taskId) + [task])));
  }

  /** A reminder saved under the id of a recurring job is not there after the reload. */
  lemma UpdateIsLost() returns (tasks: seq<Task>, task: Task)
    ensures UniqueIds(tasks) && Strip(task.taskId) == task.taskId != ""
    ensures task !in Normalized(Dump(WithoutTarget(tasks, task.kind, task.taskId) + [task]))
  {
    tasks, task := [Task("a", InternalRun, "", None)], Task("a", TelegramMessage, "", None);
    assert Strip("a") == "a";
    UpdatedTaskIsHeldOnce(tasks, task);
    assert tasks[0] in tasks;
    assert Clashes(tasks, task.kind, task.taskId);
  }

  /** The creation time carried over is that of the one task replaced, where it is there and not zero. */
  lemma {:induction false} CreatedMeaning(tasks: seq<Task>, kind: Kind, id: string)
    requires UniqueIds(tasks)
    ensures forall t :: t in tasks && IsTarget(t, kind, id) ==>
      Created(tasks, kind, id) == if t.createdAt == Some(0) then None else t.createdAt
    ensures (forall t :: t in tasks ==> !IsTarget(t, kind, id)) ==> Created(tasks, kind, id) == None
  {
    if tasks != [] {
      var before, last := tasks[..|tasks| - 1], tasks[|tasks| - 1];
      assert tasks == before + [last];
      LastIdIsNew(before, last);
      CreatedMeaning(before, kind, id);
      if IsTarget(last, kind, id) {
        forall t | t in before ensures !IsTarget(t, kind, id) {
          assert Strip(t.taskId) in Ids(before);
        }
      }
    }
  }

  /** In a file of trimmed ids only a task of the other kind can take an id. */
  lemma TrimmedIdsClash(tasks: seq<Task>, kind: Kind, id: string)
    requires forall t :: t in tasks ==> Strip(t.taskId) == t.taskId
    ensures Clashes(tasks, kind, id) <==> exists t :: t in tasks && t.taskId == id && t.kind != kind
  {
  }

  /** The key under which the scheduler keeps a task's state; no two tasks of a file share it. */
  function StateId(t: Task): string {
    if t.kind.TelegramMessage? then Strip(t.taskId) else t.taskId
  }

  lemma StateIdsAreDistinct(tasks: seq<Task>, i: nat, j: nat)
    requires UniqueIds(tasks) && i < j < |tasks|
    ensures StateId(tasks[i]) != StateId(tasks[j])
  {
    StripIdempotent(tasks[i].taskId);
    StripIdempotent(tasks[j].taskId);
  }

  class ReminderConfigStore {
    var file: RawFile

    constructor (file: RawFile)
      ensures this.file == file
    {
      this.file := file;
    }

    /** What a reload sees. */
    ghost function Document(): seq<Task>
      reads this
    {
      Normalized(file)
    }

    /** The tasks that an update keeps, and the creation time of the one it replaces. */
    method SplitOff(doc: seq<Task>, kind: Kind, id: string) returns (kept: seq<Task>, previousCreated: Option<int>)
      ensures kept == WithoutTarget(doc, kind, id) && previousCreated == Created(doc, kind, id)
    {
      kept, previousCreated := [], None;
      for n := 0 to |doc|
        invariant kept == WithoutTarget(doc[..n], kind, id)
        invariant previousCreated == Created(doc[..n], kind, id)
      {
        assert doc[..n + 1][..n] == doc[..n];
        if IsTarget(doc[n], kind, id) {
          previousCreated := doc[n].createdAt;
          if previousCreated == Some(0) {
            previousCreated := None;
          }
        } else {
          kept := kept + [doc[n]];
        }
      }
      assert doc[..|doc|] == doc;
    }

    /** Replaces or adds a task; the id is trimmed, and a fresh one stands in for a blank one. What is
        returned for a reminder carries the current time even where the stored task keeps an earlier one. */
    method AddOrUpdate(kind: Kind, taskId: string, freshId: string, body: string, now: int)
      returns (stored: Task, returned: Task)
      requires Strip(freshId) == freshId != ""
      modifies this
      ensures stored.taskId == (if Strip(taskId) == "" then freshId else Strip(taskId)) && stored.kind == kind
      ensures stored.body == body
      ensures Document() == WithoutTarget(old(Document()), kind, stored.taskId) +
        if Clashes(old(Document()), kind, stored.taskId) then [] else [stored]
      ensures stored.createdAt ==
        if kind.InternalRun? then None else Some(Created(old(Document()), kind, stored.taskId).GetOr(now))
      ensures returned == if kind.InternalRun? then stored else stored.(createdAt := Some(now))
      ensures returned == stored <==>
        kind.InternalRun? || Created(old(Document()), kind, stored.taskId) in {None, Some(now)}
    {
      var id := Strip(taskId);
      StripIdempotent(taskId);
      if id == "" {
        id := freshId;
      }
      var doc := NormalizeLegacySchedules(file);
      var kept, previousCreated := SplitOff(doc, kind, id);
      stored := Task(id, kind, body, if kind.TelegramMessage? then Some(previousCreated.GetOr(now)) else None);
      returned := if kind.InternalRun? then stored else stored.(createdAt := Some(now));
      UpdateThenLoad(doc, stored);
      file := Dump(kept + [stored]);
    }

    /** The loop of a deletion. */
    method KeepOthers(doc: seq<Task>, id: string) returns (kept: seq<Task>, isDeleted: bool)
      ensures IsKept(doc, id, kept, isDeleted)
    {
      kept, isDeleted := [], false;
      for n := 0 to |doc|
        invariant IsKept(doc[..n], id, kept, isDeleted)
      {
        TakeOneMore(doc, n);
        KeptSnoc(doc[..n], doc[n], id, kept, isDeleted);
        if Strip(doc[n].taskId) == id {
          isDeleted := true;
        } else {
          kept := kept + [doc[n]];
        }
      }
      assert doc[..|doc|] == doc;
    }

    /** Deletes the task of this id, however its id is padded, and reports whether it was there. */
    method DeleteReminder(reminderId: string) returns (isDeleted: bool)
      modifies this
      ensures isDeleted <==> HasId(old(Document()), Strip(reminderId))
      ensures Document() == WithoutId(old(Document()), Strip(reminderId))
      ensures !isDeleted ==> file == old(file)
    {
      var id := Strip(reminderId);
      var doc := NormalizeLegacySchedules(file);
      var kept;
      kept, isDeleted := KeepOthers(doc, id);
      if isDeleted {
        WithoutIdFacts(doc, id);
        DumpEntries(kept);
        UniqueIsKept(kept);
        file := Dump(kept);
      }
    }

    /** The tasks of one kind, in file order. */
    method ListTasks(kind: Kind) returns (tasks: seq<Task>)
      ensures tasks == OfKind(Document(), kind)
    {
      var doc := NormalizeLegacySchedules(file);
      tasks := [];
      for n := 0 to |doc|
        invariant tasks == OfKind(doc[..n], kind)
      {
        assert doc[..n + 1][..n] == doc[..n];
        if doc[n].kind == kind {
          tasks := tasks + [doc[n]];
        }
      }
      assert doc[..|doc|] == doc;
    }
  }

  function OfKind(tasks: seq<Task>, kind: Kind): seq<Task> {
    if tasks == [] then []
    else OfKind(tasks[..|tasks| - 1], kind) + if tasks[|tasks| - 1].kind == kind then [tasks[|tasks| - 1]] else []
  }

  /** The creation time an update carries over: that of the last task it replaces, unless it is zero. */
  function Created(tasks: seq<Task>, kind: Kind, id: string): Option<int> {
    if tasks == [] then None
    else
      var last := tasks[|tasks| - 1];
      if !IsTarget(last, kind, id) then Created(tasks[..|tasks| - 1], kind, id)
      else if last.createdAt == Some(0) then None else last.createdAt
  }
}
