/** The statistics of model calls: one bucket per model and one for all, kept in two places that
    must agree. */
module ModelStats {
  import opened Text

  datatype Outcome =
    | Success(promptTokens: int, completionTokens: int, totalTokens: int)
    | Error(code: string)

  /** One attempt at one model, as the event list of a request reports it. */
  datatype Event = Event(model: string, outcome: Outcome)

  datatype Bucket = Bucket(calls: int, success: int, errors: int,
                           promptTokens: int, completionTokens: int, totalTokens: int)

  const EMPTY := Bucket(0, 0, 0, 0, 0, 0)

  datatype Entry = Entry(bucket: Bucket, lastErrorCode: string)

  function NonNegative(n: int): nat { if n < 0 then 0 else n }

  function Plus(a: Bucket, b: Bucket): Bucket {
    Bucket(a.calls + b.calls, a.success + b.success, a.errors + b.errors, a.promptTokens + b.promptTokens,
           a.completionTokens + b.completionTokens, a.totalTokens + b.totalTokens)
  }

  /** A bucket after one more attempt. */
  function Increment(b: Bucket, o: Outcome): Bucket {
    match o
    case Success(p, c, t) =>
      b.(calls := b.calls + 1, success := b.success + 1, promptTokens := b.promptTokens + NonNegative(p),
         completionTokens := b.completionTokens + NonNegative(c), totalTokens := b.totalTokens + NonNegative(t))
    case Error(_) => b.(calls := b.calls + 1, errors := b.errors + 1)
  }

  /** A bucket after a whole list of attempts. */
  function Tally(start: Bucket, events: seq<Event>): Bucket {
    if events == [] then start
    else Increment(Tally(start, events[..|events| - 1]), events[|events| - 1].outcome)
  }

  /** A bucket after those of the attempts that were at one model. */
  function TallyFor(start: Bucket, events: seq<Event>, model: string): Bucket {
    if events == [] then start
    else
      var before, last := TallyFor(start, events[..|events| - 1], model), events[|events| - 1];
      if last.model == model then Increment(before, last.outcome) else before
  }

  function Successes(events: seq<Event>): nat {
    if events == [] then 0
    else Successes(events[..|events| - 1]) + if events[|events| - 1].outcome.Success? then 1 else 0
  }

  /** The tokens that the successful attempts report; negative numbers do not count. */
  ghost function TokensOf(events: seq<Event>, read: Outcome -> int): int {
    if events == [] then 0
    else
      var last := events[|events| - 1].outcome;
      TokensOf(events[..|events| - 1], read) + if last.Success? && read(last) > 0 then read(last) else 0
  }

  ghost function PromptTokens(o: Outcome): int { if o.Success? then o.promptTokens else 0 }
  ghost function CompletionTokens(o: Outcome): int { if o.Success? then o.completionTokens else 0 }
  ghost function TotalTokens(o: Outcome): int { if o.Success? then o.totalTokens else 0 }

  /** Every event is counted once: as a call, and as an error or as a success with its tokens. */
  lemma {:induction false} TallyCounts(start: Bucket, events: seq<Event>)
    ensures var b := Tally(start, events);
      && b.calls == start.calls + |events| && b.success == start.success + Successes(events)
      && b.errors == start.errors + |events| - Successes(events)
      && b.promptTokens == start.promptTokens + TokensOf(events, PromptTokens)
      && b.completionTokens == start.completionTokens + TokensOf(events, CompletionTokens)
      && b.totalTokens == start.totalTokens + TokensOf(events, TotalTokens)
  {
    if events != [] {
      TallyCounts(start, events[..|events| - 1]);
    }
  }

  function BucketIn(models: map<string, Entry>, model: string): Bucket {
    if model in models then models[model].bucket else EMPTY
  }

  function Book(models: map<string, Entry>, e: Event): map<string, Entry> {
    models[e.model := Entry(Increment(BucketIn(models, e.model), e.outcome),
                            if e.outcome.Error? then e.outcome.code else "")]
  }

  /** The per-model statistics after booking these events one by one. */
  function BookAll(models: map<string, Entry>, events: seq<Event>): map<string, Entry> {
    if events == [] then models else Book(BookAll(models, events[..|events| - 1]), events[|events| - 1])
  }

  /** Each model's bucket grows by exactly that model's events. */
  lemma {:induction false} BucketsGrowByTally(models: map<string, Entry>, events: seq<Event>, m: string)
    ensures BucketIn(BookAll(models, events), m) == TallyFor(BucketIn(models, m), events, m)
  {
    if events != [] {
      BucketsGrowByTally(models, events[..|events| - 1], m);
    }
  }

  // ---------- The sum over all models ----------

  ghost function SumOf(models: map<string, Entry>): Bucket {
    if models == map[] then EMPTY
    else
      var m :| m in models;
      Plus(models[m].bucket, SumOf(models - {m}))
  }

  lemma SwapPlus(a: Bucket, b: Bucket, c: Bucket)
    ensures Plus(a, Plus(b, c)) == Plus(b, Plus(a, c))
  {
  }

  /** The sum does not depend on the order in which models are visited. */
  lemma {:induction false} SumTakesOut(models: map<string, Entry>, m: string)
    requires m in models
    ensures SumOf(models) == Plus(models[m].bucket, SumOf(models - {m}))
    decreases |models|
  {
    var k :| k in models && SumOf(models) == Plus(models[k].bucket, SumOf(models - {k}));
    if k != m {
      SumTakesOut(models - {k}, m);
      SumTakesOut(models - {m}, k);
      assert models - {k} - {m} == models - {m} - {k};
      SwapPlus(models[k].bucket, models[m].bucket, SumOf(models - {k} - {m}));
    }
  }

  lemma SumSetsAside(models: map<string, Entry>, m: string)
    ensures SumOf(models) == Plus(BucketIn(models, m), SumOf(models - {m}))
  {
    if m in models {
      SumTakesOut(models, m);
    } else {
      assert models - {m} == models;
    }
  }

  lemma BookSetsAside(models: map<string, Entry>, e: Event)
    ensures Book(models, e) - {e.model} == models - {e.model}
  {
  }

  lemma IncrementOfSum(a: Bucket, b: Bucket, o: Outcome)
    ensures Plus(Increment(a, o), b) == Increment(Plus(a, b), o)
  {
  }

  lemma SumAfterBook(models: map<string, Entry>, e: Event)
    ensures SumOf(Book(models, e)) == Increment(SumOf(models), e.outcome)
  {
    SumSetsAside(models, e.model);
    SumSetsAside(Book(models, e), e.model);
    BookSetsAside(models, e);
    IncrementOfSum(BucketIn(models, e.model), SumOf(models - {e.model}), e.outcome);
  }

  /** The totals stay the sum over the models, in every field, whatever is booked. */
  lemma {:induction false} LedgersAgree(totals: Bucket, models: map<string, Entry>, events: seq<Event>)
    requires totals == SumOf(models)
    ensures Tally(totals, events) == SumOf(BookAll(models, events))
  {
    if events != [] {
      var before, e := events[..|events| - 1], events[|events| - 1];
      LedgersAgree(totals, models, before);
      SumAfterBook(BookAll(models, before), e);
    }
  }

  // ---------- The service ----------

  class ModelStatsService {
    var totals: Bucket
    var models: map<string, Entry>

    constructor ()
      ensures totals == EMPTY && models == map[]
    {
      totals, models := EMPTY, map[];
    }

    method IncrementBucket(bucket: Bucket, o: Outcome) returns (r: Bucket)
      ensures r == Increment(bucket, o)
    {
      r := bucket.(calls := bucket.calls + 1);
      match o
      case Success(p, c, t) =>
        r := r.(success := r.success + 1, promptTokens := r.promptTokens + if p > 0 then p else 0);
        r := r.(completionTokens := r.completionTokens + if c > 0 then c else 0);
        r := r.(totalTokens := r.totalTokens + if t > 0 then t else 0);
      case Error(_) =>
        r := r.(errors := r.errors + 1);
    }

    /** Books one attempt in both places. */
    method RecordAttempt(modelName: string, o: Outcome)
      modifies this
      ensures totals == Increment(old(totals), o)
      ensures models == Book(old(models), Event(ModelKey(modelName), o))
    {
      var modelKey := ModelKey(modelName);
      totals := IncrementBucket(totals, o);
      var entry := if modelKey in models then models[modelKey] else Entry(EMPTY, "");
      var bucket := IncrementBucket(entry.bucket, o);
      entry := Entry(bucket, if o.Error? then o.code else "");
      models := models[modelKey := entry];
    }
  }

  function ModelKey(modelName: string): string {
    if modelName == "" then "unknown" else modelName
  }
}
