/** From the tenants' schedule files to the tasks the scheduler runs: no two tasks share a key, and the
    deletion of a reminder from its tenant's file is the deletion of its key from the scheduler's list. */
module TenantTasks {
  import opened Text
  import ScheduleFile
  import opened Scheduler

  datatype Tenant = Tenant(owner: string, doc: seq<ScheduleFile.Task>)

  /** How the body of a stored task is read. */
  type Reader = ScheduleFile.Task -> Task

  function ItemOf(owner: string, t: ScheduleFile.Task, read: Reader): Item {
    Item(Key(owner, ScheduleFile.StateId(t)), read(t))
  }

  function ItemsOf(owner: string, doc: seq<ScheduleFile.Task>, read: Reader): (items: seq<Item>)
    ensures |items| == |doc| && forall i :: 0 <= i < |doc| ==> items[i] == ItemOf(owner, doc[i], read)
  {
    seq(|doc|, i requires 0 <= i < |doc| => ItemOf(owner, doc[i], read))
  }

  /** The tasks of all tenants, file after file. */
  function AllItems(tenants: seq<Tenant>, read: Reader): seq<Item> {
    if tenants == [] then []
    else
      var last := tenants[|tenants| - 1];
      AllItems(tenants[..|tenants| - 1], read) + ItemsOf(last.owner, last.doc, read)
  }

  /** Each tenant has one file, and each file is normalised. */
  ghost predicate WellFormed(tenants: seq<Tenant>) {
    && (forall i, j :: 0 <= i < j < |tenants| ==> tenants[i].owner != tenants[j].owner)
    && (forall i :: 0 <= i < |tenants| ==> ScheduleFile.UniqueIds(tenants[i].doc))
  }

  lemma {:induction false} OwnersOf(tenants: seq<Tenant>, read: Reader)
    ensures forall x :: x in AllItems(tenants, read) ==> exists i :: 0 <= i < |tenants| && tenants[i].owner == x.key.owner
  {
    if tenants != [] {
      var n := |tenants| - 1;
      OwnersOf(tenants[..n], read);
      forall x | x in AllItems(tenants, read) ensures exists i :: 0 <= i < |tenants| && tenants[i].owner == x.key.owner {
        if x in AllItems(tenants[..n], read) {
          var i :| 0 <= i < n && tenants[..n][i].owner == x.key.owner;
          assert tenants[i].owner == x.key.owner;
        } else {
          assert x in ItemsOf(tenants[n].owner, tenants[n].doc, read);
          assert tenants[n].owner == x.key.owner;
        }
      }
    }
  }

  lemma KeysOfOne(owner: string, doc: seq<ScheduleFile.Task>, read: Reader)
    requires ScheduleFile.UniqueIds(doc)
    ensures UniqueKeys(ItemsOf(owner, doc, read))
  {
    var items := ItemsOf(owner, doc, read);
    forall i, j | 0 <= i < j < |items| ensures items[i].key != items[j].key {
      ScheduleFile.StateIdsAreDistinct(doc, i, j);
    }
  }

  lemma KeysOfConcat(a: seq<Item>, b: seq<Item>, owner: string)
    requires UniqueKeys(a) && UniqueKeys(b)
    requires (forall x :: x in a ==> x.key.owner != owner) && (forall x :: x in b ==> x.key.owner == owner)
    ensures UniqueKeys(a + b)
  {
    assert forall i :: 0 <= i < |a| ==> a[i] in a;
    assert forall i :: 0 <= i < |b| ==> b[i] in b;
  }

  /** No two tasks of all the files share a key, as every tick of the scheduler requires. */
  lemma {:induction false} TasksHaveUniqueKeys(tenants: seq<Tenant>, read: Reader)
    requires WellFormed(tenants)
    ensures UniqueKeys(AllItems(tenants, read))
  {
    if tenants != [] {
      var n := |tenants| - 1;
      TasksHaveUniqueKeys(tenants[..n], read);
      KeysOfOne(tenants[n].owner, tenants[n].doc, read);
      OwnersOf(tenants[..n], read);
      KeysOfConcat(AllItems(tenants[..n], read), ItemsOf(tenants[n].owner, tenants[n].doc, read), tenants[n].owner);
    }
  }

  // ---------- Deleting a reminder ----------

  lemma {:induction false} WithoutConcat(a: seq<Item>, b: seq<Item>, key: Key)
    ensures Without(a + b, key) == Without(a, key) + Without(b, key)
  {
    if b == [] {
      assert a + b == a;
    } else {
      InitOfConcat(a, b);
      WithoutConcat(a, b[..|b| - 1], key);
    }
  }

  lemma {:induction false} WithoutStranger(items: seq<Item>, key: Key)
    requires forall x :: x in items ==> x.key != key
    ensures Without(items, key) == items
  {
    if items != [] {
      var before, last := items[..|items| - 1], items[|items| - 1];
      assert items == before + [last];
      assert last in items && forall x :: x in before ==> x in items;
      WithoutStranger(before, key);
    }
  }

  lemma ItemsOfConcat(owner: string, a: seq<ScheduleFile.Task>, b: seq<ScheduleFile.Task>, read: Reader)
    ensures ItemsOf(owner, a + b, read) == ItemsOf(owner, a, read) + ItemsOf(owner, b, read)
  {
  }

  lemma {:induction false} WithoutInFile(owner: string, doc: seq<ScheduleFile.Task>, read: Reader, id: string)
    requires forall t :: t in doc ==> (ScheduleFile.StateId(t) == id <==> Strip(t.taskId) == id)
    ensures Without(ItemsOf(owner, doc, read), Key(owner, id)) == ItemsOf(owner, ScheduleFile.WithoutId(doc, id), read)
  {
    if doc != [] {
      var before, last := doc[..|doc| - 1], doc[|doc| - 1];
      assert last in doc && forall t :: t in before ==> t in doc;
      WithoutInFile(owner, before, read, id);
      WithoutLast(owner, doc, read, id);
      ItemsOfConcat(owner, ScheduleFile.WithoutId(before, id), [last], read);
    }
  }

  lemma WithoutLast(owner: string, doc: seq<ScheduleFile.Task>, read: Reader, id: string)
    requires doc != []
    ensures var before, last := doc[..|doc| - 1], doc[|doc| - 1];
      Without(ItemsOf(owner, doc, read), Key(owner, id)) == Without(ItemsOf(owner, before, read), Key(owner, id)) +
        if ScheduleFile.StateId(last) == id then [] else ItemsOf(owner, [last], read)
  {
    assert ItemsOf(owner, doc, read)[..|doc| - 1] == ItemsOf(owner, doc[..|doc| - 1], read);
  }

  lemma ReminderHasItsId(doc: seq<ScheduleFile.Task>, reminder: ScheduleFile.Task)
    requires ScheduleFile.UniqueIds(doc) && reminder in doc && reminder.kind.TelegramMessage?
    ensures forall t :: t in doc ==> (ScheduleFile.StateId(t) == Strip(reminder.taskId) <==> Strip(t.taskId) == Strip(reminder.taskId))
  {
    var id := Strip(reminder.taskId);
    StripIdempotent(reminder.taskId);
    forall t | t in doc ensures ScheduleFile.StateId(t) == id <==> Strip(t.taskId) == id {
      var i :| 0 <= i < |doc| && doc[i] == reminder;
      var j :| 0 <= j < |doc| && doc[j] == t;
      assert Strip(t.taskId) == id ==> i == j;
    }
  }

  lemma {:induction false} AllItemsConcat(a: seq<Tenant>, b: seq<Tenant>, read: Reader)
    ensures AllItems(a + b, read) == AllItems(a, read) + AllItems(b, read)
  {
    if b == [] {
      assert a + b == a;
    } else {
      InitOfConcat(a, b);
      AllItemsConcat(a, b[..|b| - 1], read);
    }
  }

  lemma AllItemsAround(a: seq<Tenant>, t: Tenant, b: seq<Tenant>, read: Reader)
    ensures AllItems(a + [t] + b, read) == AllItems(a, read) + ItemsOf(t.owner, t.doc, read) + AllItems(b, read)
  {
    AllItemsConcat(a + [t], b, read);
    assert (a + [t])[..|a|] == a;
  }

  lemma OthersAreUntouched(others: seq<Tenant>, read: Reader, key: Key)
    requires forall i :: 0 <= i < |others| ==> others[i].owner != key.owner
    ensures Without(AllItems(others, read), key) == AllItems(others, read)
  {
    OwnersOf(others, read);
    WithoutStranger(AllItems(others, read), key);
  }

  lemma DeletionInOne(a: seq<Tenant>, t: Tenant, b: seq<Tenant>, read: Reader, reminder: ScheduleFile.Task)
    requires ScheduleFile.UniqueIds(t.doc) && reminder in t.doc && reminder.kind.TelegramMessage?
    requires (forall i :: 0 <= i < |a| ==> a[i].owner != t.owner) && (forall i :: 0 <= i < |b| ==> b[i].owner != t.owner)
    ensures var id := Strip(reminder.taskId);
      Without(AllItems(a + [t] + b, read), Key(t.owner, id)) ==
      AllItems(a + [t.(doc := ScheduleFile.WithoutId(t.doc, id))] + b, read)
  {
    var id := Strip(reminder.taskId);
    var key, kept := Key(t.owner, id), t.(doc := ScheduleFile.WithoutId(t.doc, id));
    var one := ItemsOf(t.owner, t.doc, read);
    AllItemsAround(a, t, b, read);
    AllItemsAround(a, kept, b, read);
    WithoutConcat(AllItems(a, read) + one, AllItems(b, read), key);
    WithoutConcat(AllItems(a, read), one, key);
    OthersAreUntouched(a, read, key);
    OthersAreUntouched(b, read, key);
    ReminderHasItsId(t.doc, reminder);
    WithoutInFile(t.owner, t.doc, read, id);
  }

  /** Deleting a reminder's id from its tenant's file deletes its key, and nothing else, from the list of
      all tenants' tasks. */
  lemma DeletionsAgree(tenants: seq<Tenant>, read: Reader, i: nat, reminder: ScheduleFile.Task)
    requires WellFormed(tenants) && i < |tenants| && reminder in tenants[i].doc && reminder.kind.TelegramMessage?
    ensures var id := Strip(reminder.taskId);
      Without(AllItems(tenants, read), Key(tenants[i].owner, id)) ==
      AllItems(tenants[i := tenants[i].(doc := ScheduleFile.WithoutId(tenants[i].doc, id))], read)
  {
    var a, t, b, id := tenants[..i], tenants[i], tenants[i + 1..], Strip(reminder.taskId);
    var kept := t.(doc := ScheduleFile.WithoutId(t.doc, id));
    assert tenants == a + [t] + b && tenants[i := kept] == a + [kept] + b;
    DeletionInOne(a, t, b, read, reminder);
  }
}
