/** One language-model request over several models: retries, fallback, and the timer that keeps a
    failed primary model at the back of the queue. */
module LlmFallback {
  import opened Text
  import opened ModelStats

  datatype ModelSettings = ModelSettings(primary: string, secondary: string, tertiary: string,
                                         retryCount: nat, cooldownSeconds: nat)

  // ---------- The order of models ----------

  /** The non-empty names, each where it first occurs. */
  function Distinct(names: seq<string>): seq<string> {
    if names == [] then []
    else
      var before := Distinct(names[..|names| - 1]);
      var last := names[|names| - 1];
      if last == "" || last in before then before else before + [last]
  }

  function Candidates(s: ModelSettings, preferred: string, isPrimarySuppressed: bool): seq<string> {
    if isPrimarySuppressed then [s.secondary, s.tertiary, s.primary]
    else [preferred, s.secondary, s.tertiary]
  }

  lemma {:induction false} DistinctFacts(names: seq<string>)
    ensures NoRepeats(Distinct(names))
    ensures forall x :: x in Distinct(names) <==> x in names && x != ""
  {
    if names != [] {
      DistinctFacts(names[..|names| - 1]);
      assert names == names[..|names| - 1] + [names[|names| - 1]];
    }
  }

  method BuildModelOrder(s: ModelSettings, preferred: string, isPrimarySuppressed: bool)
    returns (uniqueModels: seq<string>)
    ensures uniqueModels == Distinct(Candidates(s, preferred, isPrimarySuppressed)) && NoRepeats(uniqueModels)
  {
    var orderedModels := [preferred, s.secondary, s.tertiary];
    if isPrimarySuppressed {
      orderedModels := [s.secondary, s.tertiary, s.primary];
    }
    uniqueModels := [];
    for k := 0 to |orderedModels|
      invariant uniqueModels == Distinct(orderedModels[..k])
    {
      assert orderedModels[..k + 1][..k] == orderedModels[..k];
      if orderedModels[k] != "" && orderedModels[k] !in uniqueModels {
        uniqueModels := uniqueModels + [orderedModels[k]];
      }
    }
    assert orderedModels[..|orderedModels|] == orderedModels;
    DistinctFacts(orderedModels);
  }

  /** The primary model has a place in the order of one request exactly when it is suppressed, preferred
      or also a fallback. */
  lemma PrimaryIsInOrderIff(s: ModelSettings, preferred: string, isPrimarySuppressed: bool)
    requires s.primary != ""
    ensures s.primary in Distinct(Candidates(s, preferred, isPrimarySuppressed)) <==>
      isPrimarySuppressed || s.primary == preferred || s.primary == s.secondary || s.primary == s.tertiary
  {
    DistinctFacts(Candidates(s, preferred, isPrimarySuppressed));
  }

  // ---------- The plan of attempts ----------

  function Repeat(x: string, n: nat): (r: seq<string>)
    ensures |r| == n && forall i :: 0 <= i < n ==> r[i] == x
  {
    seq(n, _ => x)
  }

  /** Every model of the order, each as often as it may be tried. */
  function Plan(order: seq<string>, attempts: nat): seq<string> {
    if order == [] then [] else Plan(order[..|order| - 1], attempts) + Repeat(order[|order| - 1], attempts)
  }

  lemma {:induction false} PlanPrefix(order: seq<string>, attempts: nat, k: nat, n: nat)
    requires k < |order| && n <= attempts
    ensures Plan(order[..k], attempts) + Repeat(order[k], n) <= Plan(order, attempts)
  {
    var last := |order| - 1;
    if k == last {
      assert Repeat(order[k], n) <= Repeat(order[k], attempts);
    } else {
      PlanPrefix(order[..last], attempts, k, n);
      assert order[..last][..k] == order[..k];
    }
  }

  function Models(events: seq<Event>): (r: seq<string>)
    ensures |r| == |events| && forall i :: 0 <= i < |events| ==> r[i] == events[i].model
  {
    seq(|events|, i requires 0 <= i < |events| => events[i].model)
  }

  /** The events of one request: the plan followed from its start, errors until at most one final success. */
  ghost predicate FollowsPlan(events: seq<Event>, plan: seq<string>, provider: nat -> Outcome) {
    && Models(events) <= plan
    && (forall i :: 0 <= i < |events| ==> events[i].outcome == provider(i))
    && (forall i :: 0 <= i < |events| - 1 ==> events[i].outcome.Error?)
    && (|events| < |plan| ==> events != [] && events[|events| - 1].outcome.Success?)
  }

  function CountOf(names: seq<string>, x: string): nat {
    if names == [] then 0 else CountOf(names[..|names| - 1], x) + if names[|names| - 1] == x then 1 else 0
  }

  lemma {:induction false} CountInRepeat(before: seq<string>, x: string, n: nat, y: string)
    ensures CountOf(before + Repeat(x, n), y) == CountOf(before, y) + if x == y then n else 0
  {
    if n == 0 {
      assert before + Repeat(x, n) == before;
    } else {
      assert before + Repeat(x, n) == (before + Repeat(x, n - 1)) + [x];
      assert (before + Repeat(x, n))[..|before| + n - 1] == before + Repeat(x, n - 1);
      CountInRepeat(before, x, n - 1, y);
    }
  }

  lemma {:induction false} CountInPlan(order: seq<string>, attempts: nat, k: nat)
    requires NoRepeats(order) && k < |order|
    ensures CountOf(Plan(order, attempts), order[k]) == attempts
  {
    var last := |order| - 1;
    CountInRepeat(Plan(order[..last], attempts), order[last], attempts, order[k]);
    if k < last {
      CountInPlan(order[..last], attempts, k);
    } else {
      AbsentFromPlan(order[..last], attempts, order[last]);
    }
  }

  lemma {:induction false} AbsentFromPlan(order: seq<string>, attempts: nat, x: string)
    requires x !in order
    ensures x !in Plan(order, attempts) && CountOf(Plan(order, attempts), x) == 0
  {
    if order != [] {
      var last := |order| - 1;
      AbsentFromPlan(order[..last], attempts, x);
      CountInRepeat(Plan(order[..last], attempts), order[last], attempts, x);
    }
  }

  /** When a model is tried, every model before it in the order has used up all its attempts. */
  lemma {:induction false} EarlierModelsExhausted(order: seq<string>, attempts: nat, i: nat, w: nat, k: nat)
    requires NoRepeats(order) && k < w < |order|
    requires i < |Plan(order, attempts)| && Plan(order, attempts)[i] == order[w]
    ensures CountOf(Plan(order, attempts)[..i], order[k]) == attempts
  {
    var last := |order| - 1;
    var plan, before := Plan(order, attempts), Plan(order[..last], attempts);
    if i < |before| {
      if w == last {
        assert before[i] == order[last];
        AbsentFromPlan(order[..last], attempts, order[last]);
        assert false;
      }
      EarlierModelsExhausted(order[..last], attempts, i, w, k);
      assert plan[..i] == before[..i];
    } else {
      assert order[w] == order[last];
      assert plan[..i] == before + Repeat(order[last], i - |before|);
      CountInRepeat(before, order[last], i - |before|, order[k]);
      CountInPlan(order[..last], attempts, k);
    }
  }

  // ---------- The service ----------

  datatype Completion = Completion(selectedModel: string, didComplete: bool, events: seq<Event>)

  function LastSuccess(events: seq<Event>): Option<string> {
    if events == [] then None
    else
      var last := events[|events| - 1];
      if last.outcome.Success? then Some(last.model) else LastSuccess(events[..|events| - 1])
  }

  /** No call has succeeded yet, or the last one that did was this model's. */
  predicate NoOtherSuccess(events: seq<Event>, model: string) {
    match LastSuccess(events)
    case None => true
    case Some(m) => m == model
  }

  ghost predicate AllErrors(events: seq<Event>) {
    forall i :: 0 <= i < |events| ==> events[i].outcome.Error?
  }

  ghost predicate Answered(events: seq<Event>, provider: nat -> Outcome) {
    forall i :: 0 <= i < |events| ==> events[i].outcome == provider(i)
  }

  predicate Succeeded(events: seq<Event>) {
    events != [] && events[|events| - 1].outcome.Success?
  }

  class LlmService {
    const settings: ModelSettings
    const stats: ModelStatsService
    var primarySuppressedUntil: Option<int>
    ghost var history: seq<Event>
    ghost const startTotals: Bucket
    ghost const startModels: map<string, Entry>

    constructor (settings: ModelSettings, stats: ModelStatsService)
      ensures Valid() && this.settings == settings && this.stats == stats
      ensures history == [] && primarySuppressedUntil == None
      ensures startTotals == stats.totals && startModels == stats.models
    {
      this.settings, this.stats := settings, stats;
      primarySuppressedUntil, history := None, [];
      startTotals, startModels := stats.totals, stats.models;
    }

    /** Everything this service ever attempted is in the statistics, once, in both places; and the timer
        is set exactly when the last success was not the primary's. */
    ghost predicate Valid()
      reads this, stats
    {
      && stats.totals == Tally(startTotals, history) && stats.models == BookAll(startModels, history)
      && (primarySuppressedUntil.None? <==> NoOtherSuccess(history, settings.primary))
    }

    /** Books one attempt: statistics first, then the timer. */
    method Book(event: Event, now: int)
      requires Valid() && event.model != ""
      modifies this, stats
      ensures Valid() && history == old(history) + [event]
      ensures primarySuppressedUntil ==
        if event.outcome.Success? then TimerSetBy(settings, event.model, now) else old(primarySuppressedUntil)
    {
      stats.RecordAttempt(event.model, event.outcome);
      if event.outcome.Success? {
        OnModelSuccess(event.model, now);
      }
      assert (history + [event])[..|history|] == history;
      history := history + [event];
    }

    method OnModelSuccess(modelName: string, now: int)
      modifies this`primarySuppressedUntil
      ensures primarySuppressedUntil == TimerSetBy(settings, modelName, now)
    {
      if modelName == settings.primary {
        primarySuppressedUntil := None;
      } else {
        primarySuppressedUntil := Some(now + settings.cooldownSeconds);
      }
    }

    /** Tries one model up to the retry limit, after the attempts made before. */
    method TryModel(modelName: string, before: seq<Event>, provider: nat -> Outcome, clock: nat -> int,
                    ghost earlier: seq<Event>)
      returns (events: seq<Event>)
      requires Valid() && history == earlier + before
      requires modelName != "" && AllErrors(before) && Answered(before, provider)
      modifies this, stats
      ensures Valid() && history == earlier + events
      ensures primarySuppressedUntil == TimerAfter(settings, old(primarySuppressedUntil), events, clock)
      ensures TriedModel(before, events, modelName, settings.retryCount + 1) && Answered(events, provider)
    {
      events := before;
      TimerKept(settings, primarySuppressedUntil, before, clock);
      for attempt := 0 to settings.retryCount + 1
        invariant Valid() && history == earlier + events && primarySuppressedUntil == old(primarySuppressedUntil)
        invariant FailedSoFar(before, events, modelName, attempt, provider)
        invariant attempt == settings.retryCount + 1 ==> TriedModel(before, events, modelName, attempt)
      {
        ghost var failed := events;
        var event := Attempt(modelName, |events|, provider, clock);
        events := events + [event];
        AfterOneMore(earlier, before, failed, events, event, attempt, settings.retryCount + 1, provider);
        TimerMoves(settings, old(primarySuppressedUntil), failed, event, clock);
        if event.outcome.Success? {
          return;
        }
      }
      TimerKept(settings, primarySuppressedUntil, events, clock);
    }

    method Attempt(modelName: string, index: nat, provider: nat -> Outcome, clock: nat -> int) returns (event: Event)
      requires Valid() && modelName != ""
      modifies this, stats
      ensures event == Event(modelName, provider(index))
      ensures Valid() && history == old(history) + [event]
      ensures primarySuppressedUntil ==
        if event.outcome.Success? then TimerSetBy(settings, modelName, clock(index)) else old(primarySuppressedUntil)
    {
      event := Event(modelName, provider(index));
      Book(event, clock(index));
    }

    /** One request: the models of the order in turn, each with its retries, until one succeeds. */
    method Complete(modelName: string, provider: nat -> Outcome, now: int, clock: nat -> int)
      returns (result: Completion)
      requires Valid()
      modifies this, stats
      ensures Valid() && history == old(history) + result.events
      ensures primarySuppressedUntil == TimerAfter(settings, old(primarySuppressedUntil), result.events, clock)
      ensures Completed(result, OrderAt(settings, old(primarySuppressedUntil), modelName, now), modelName,
                        settings.retryCount + 1, provider)
    {
      var isPrimarySuppressed := primarySuppressedUntil.Some? && now < primarySuppressedUntil.value;
      var modelOrder := BuildModelOrder(settings, modelName, isPrimarySuppressed);
      DistinctFacts(Candidates(settings, modelName, isPrimarySuppressed));
      result := TryModels(modelOrder, modelName, provider, clock);
    }

    method TryModels(modelOrder: seq<string>, modelName: string, provider: nat -> Outcome, clock: nat -> int)
      returns (result: Completion)
      requires Valid() && "" !in modelOrder
      modifies this, stats
      ensures Valid() && history == old(history) + result.events
      ensures primarySuppressedUntil == TimerAfter(settings, old(primarySuppressedUntil), result.events, clock)
      ensures Completed(result, modelOrder, modelName, settings.retryCount + 1, provider)
    {
      var events, lastModelName := [], modelName;
      ghost var earlier, attempts := history, settings.retryCount + 1;
      for k := 0 to |modelOrder|
        invariant Valid() && history == earlier + events && primarySuppressedUntil == old(primarySuppressedUntil)
        invariant AllFailed(events, modelOrder[..k], attempts, provider)
        invariant lastModelName == if k == 0 then modelName else modelOrder[k - 1]
      {
        lastModelName := modelOrder[k];
        ghost var before := events;
        events := TryModel(lastModelName, events, provider, clock, earlier);
        OneMoreModel(modelOrder, modelName, attempts, k, before, events, provider);
        if Succeeded(events) {
          return Completion(lastModelName, true, events);
        }
      }
      assert modelOrder[..|modelOrder|] == modelOrder;
      NoneSucceeded(modelOrder, modelName, attempts, lastModelName, events, provider);
      result := Completion(lastModelName, false, events);
    }
  }

  /** A series of requests, each preferring the model that the one before came back with, and each served as
      the last answer before it dictates. */
  method CompleteInTurn(service: LlmService, first: string, turns: seq<Turn>)
    returns (results: seq<Completion>, ghost links: seq<Link>)
    requires service.Valid()
    modifies service, service.stats
    ensures service.Valid() && Chained(service.settings, first, old(service.primarySuppressedUntil), links)
    ensures service.primarySuppressedUntil == LastTimer(old(service.primarySuppressedUntil), links)
    ensures IsSeries(turns, results, links)
    ensures ServesByAnswers(service.settings, first, old(service.primarySuppressedUntil), links)
  {
    results, links := [], [];
    var selectedModel := first;
    for j := 0 to |turns|
      invariant service.Valid() && Chained(service.settings, first, old(service.primarySuppressedUntil), links)
      invariant service.primarySuppressedUntil == LastTimer(old(service.primarySuppressedUntil), links)
      invariant selectedModel == PreferredBy(first, links) && IsSeries(turns[..j], results, links)
    {
      var result, link := CompleteNext(service, selectedModel, turns[j]);
      ChainGrows(service.settings, first, old(service.primarySuppressedUntil), links, link);
      SeriesGrows(turns, j, results, links, result, link);
      results, links, selectedModel := results + [result], links + [link], result.selectedModel;
    }
    assert turns[..|turns|] == turns;
    SeriesByAnswers(service.settings, first, old(service.primarySuppressedUntil), links);
  }

  /** The links record these turns and their results. */
  ghost predicate IsSeries(turns: seq<Turn>, results: seq<Completion>, links: seq<Link>) {
    && |results| == |links| == |turns|
    && forall j :: 0 <= j < |turns| ==> links[j].turn == turns[j] && links[j].result == results[j]
  }

  lemma SeriesGrows(turns: seq<Turn>, j: nat, results: seq<Completion>, links: seq<Link>, result: Completion, link: Link)
    requires j < |turns| && IsSeries(turns[..j], results, links) && link.turn == turns[j] && link.result == result
    ensures IsSeries(turns[..j + 1], results + [result], links + [link])
    ensures PreferredBy("", links + [link]) == result.selectedModel && LastTimer(None, links + [link]) == link.next
  {
  }

  method CompleteNext(service: LlmService, preferred: string, turn: Turn) returns (result: Completion, ghost link: Link)
    requires service.Valid()
    modifies service, service.stats
    ensures service.Valid() && Answers(service.settings, preferred, link)
    ensures link == Link(turn, old(service.primarySuppressedUntil), result, service.primarySuppressedUntil)
  {
    result := service.Complete(preferred, turn.provider, turn.now, turn.clock);
    link := Link(turn, old(service.primarySuppressedUntil), result, service.primarySuppressedUntil);
  }

  // ---------- The timer ----------

  function TimerSetBy(s: ModelSettings, modelName: string, now: int): Option<int> {
    if modelName == s.primary then None else Some(now + s.cooldownSeconds)
  }

  /** The timer after a request: set or cleared by its success, untouched without one. */
  function TimerAfter(s: ModelSettings, before: Option<int>, events: seq<Event>, clock: nat -> int): Option<int> {
    if Succeeded(events) then TimerSetBy(s, events[|events| - 1].model, clock(|events| - 1)) else before
  }

  lemma TimerKept(s: ModelSettings, before: Option<int>, events: seq<Event>, clock: nat -> int)
    requires AllErrors(events)
    ensures TimerAfter(s, before, events, clock) == before
  {
  }

  lemma TimerMoves(s: ModelSettings, before: Option<int>, failed: seq<Event>, event: Event, clock: nat -> int)
    ensures TimerAfter(s, before, failed + [event], clock) ==
      if event.outcome.Success? then TimerSetBy(s, event.model, clock(|failed|)) else before
  {
  }

  function OrderAt(s: ModelSettings, timer: Option<int>, modelName: string, now: int): seq<string> {
    Distinct(Candidates(s, modelName, timer.Some? && now < timer.value))
  }

  /** What one request returns: events that follow the plan, and the model that answered or was last. */
  ghost predicate Completed(result: Completion, order: seq<string>, modelName: string, attempts: nat,
                            provider: nat -> Outcome) {
    && FollowsPlan(result.events, Plan(order, attempts), provider)
    && result.didComplete == Succeeded(result.events)
    && result.selectedModel ==
       (if result.didComplete then result.events[|result.events| - 1].model
        else if order == [] then modelName else order[|order| - 1])
  }

  /** Every model of these has failed on each of its attempts. */
  ghost predicate AllFailed(events: seq<Event>, models: seq<string>, attempts: nat, provider: nat -> Outcome) {
    AllErrors(events) && Answered(events, provider) && Models(events) == Plan(models, attempts)
  }

  /** The attempts at one model: errors, then at most one success, which alone may cut them short. */
  ghost predicate TriedModel(before: seq<Event>, events: seq<Event>, modelName: string, attempts: nat) {
    && |before| < |events| <= |before| + attempts
    && Models(events) == Models(before) + Repeat(modelName, |events| - |before|)
    && AllErrors(events[..|events| - 1])
    && (!Succeeded(events) ==> |events| == |before| + attempts)
  }

  ghost predicate FailedSoFar(before: seq<Event>, events: seq<Event>, modelName: string, attempt: nat,
                              provider: nat -> Outcome) {
    && |events| == |before| + attempt && AllErrors(events) && Answered(events, provider)
    && Models(events) == Models(before) + Repeat(modelName, attempt)
  }

  lemma AfterOneMore(earlier: seq<Event>, before: seq<Event>, failed: seq<Event>, events: seq<Event>, event: Event,
                     attempt: nat, attempts: nat, provider: nat -> Outcome)
    requires FailedSoFar(before, failed, event.model, attempt, provider) && attempt < attempts
    requires events == failed + [event] && event.outcome == provider(|failed|)
    ensures (earlier + failed) + [event] == earlier + events && Answered(events, provider)
    ensures event.outcome.Error? ==> FailedSoFar(before, events, event.model, attempt + 1, provider)
    ensures event.outcome.Success? || attempt + 1 == attempts ==> TriedModel(before, events, event.model, attempts)
  {
    assert Models(events) == Models(before) + Repeat(event.model, attempt + 1);
    assert events[..|failed|] == failed;
  }

  lemma OneMoreModel(order: seq<string>, modelName: string, attempts: nat, k: nat, before: seq<Event>,
                     events: seq<Event>, provider: nat -> Outcome)
    requires k < |order| && Answered(events, provider)
    requires AllFailed(before, order[..k], attempts, provider)
    requires TriedModel(before, events, order[k], attempts)
    ensures Succeeded(events) ==> Completed(Completion(order[k], true, events), order, modelName, attempts, provider)
    ensures !Succeeded(events) ==> AllFailed(events, order[..k + 1], attempts, provider)
  {
    var n := |events| - 1;
    assert forall i :: 0 <= i < n ==> events[..n][i] == events[i];
    if Succeeded(events) {
      PlanPrefix(order, attempts, k, |events| - |before|);
      assert Models(events)[n] == order[k];
    } else {
      assert order[..k + 1][..k] == order[..k];
    }
  }

  lemma NoneSucceeded(order: seq<string>, modelName: string, attempts: nat, last: string, events: seq<Event>,
                      provider: nat -> Outcome)
    requires AllFailed(events, order, attempts, provider)
    requires last == if order == [] then modelName else order[|order| - 1]
    ensures Completed(Completion(last, false, events), order, modelName, attempts, provider)
  {
  }

  // ---------- What the events of a request show ----------

  /** Every model that comes before the one just tried has failed on each of its attempts. */
  lemma EarlierModelsFailed(order: seq<string>, attempts: nat, events: seq<Event>, provider: nat -> Outcome,
                            i: nat, w: nat, k: nat)
    requires NoRepeats(order) && FollowsPlan(events, Plan(order, attempts), provider)
    requires i < |events| && k < w < |order| && events[i].model == order[w]
    ensures CountOf(Models(events)[..i], order[k]) == attempts && AllErrors(events[..i])
  {
    EarlierModelsExhausted(order, attempts, i, w, k);
    assert Models(events)[i] == Plan(order, attempts)[i];
    assert Models(events)[..i] == Plan(order, attempts)[..i];
  }

  /** While the timer runs, a primary that is no fallback is tried only after every fallback has
      failed on each of its attempts. */
  lemma SuppressedPrimaryIsLast(s: ModelSettings, preferred: string, attempts: nat, events: seq<Event>,
                                provider: nat -> Outcome, i: nat, fallback: string)
    requires FollowsPlan(events, Plan(Distinct(Candidates(s, preferred, true)), attempts), provider)
    requires i < |events| && events[i].model == s.primary
    requires s.primary !in {s.secondary, s.tertiary} && fallback in {s.secondary, s.tertiary} && fallback != ""
    ensures CountOf(Models(events)[..i], fallback) == attempts && AllErrors(events[..i])
  {
    var order := Distinct(Candidates(s, preferred, true));
    var before := Distinct([s.secondary, s.tertiary]);
    DistinctFacts(Candidates(s, preferred, true));
    DistinctFacts([s.secondary, s.tertiary]);
    assert Candidates(s, preferred, true)[..2] == [s.secondary, s.tertiary];
    PlannedModelInOrder(order, attempts, i);
    assert Models(events)[i] == s.primary;
    assert order == before + [s.primary];
    assert fallback in before;
    var k :| 0 <= k < |before| && before[k] == fallback;
    EarlierModelsFailed(order, attempts, events, provider, i, |before|, k);
  }

  lemma {:induction false} PlannedModelInOrder(order: seq<string>, attempts: nat, i: nat)
    requires i < |Plan(order, attempts)|
    ensures Plan(order, attempts)[i] in order
  {
    var last := |order| - 1;
    if i < |Plan(order[..last], attempts)| {
      PlannedModelInOrder(order[..last], attempts, i);
    }
  }

  /** A model is tried exactly when every answer to the models before it is an error. */
  lemma {:induction false} ModelIsTriedIff(order: seq<string>, attempts: nat, events: seq<Event>, provider: nat -> Outcome, w: nat)
    requires NoRepeats(order) && w < |order| && attempts > 0
    requires FollowsPlan(events, Plan(order, attempts), provider)
    ensures order[w] in Models(events) <==> FailedUpTo(provider, AttemptsAt(order[..w], attempts))
  {
    var plan, before := Plan(order, attempts), Plan(order[..w], attempts);
    PlanLength(order[..w], attempts);
    PlanPrefix(order, attempts, w, 1);
    AbsentFromPlan(order[..w], attempts, order[w]);
    var n := AttemptsAt(order[..w], attempts);
    assert plan[n] == (before + Repeat(order[w], 1))[n] == order[w];
    assert forall i :: 0 <= i < n ==> plan[i] == before[i] && before[i] in before;
    assert |events| > n ==> Models(events)[n] == plan[n];
    if order[w] in Models(events) {
      var i :| 0 <= i < |events| && Models(events)[i] == order[w];
      assert plan[i] == order[w];
    }
  }

  lemma {:induction false} PlanLength(order: seq<string>, attempts: nat)
    ensures |Plan(order, attempts)| == AttemptsAt(order, attempts)
  {
    if order != [] {
      PlanLength(order[..|order| - 1], attempts);
      Distribute(|order| - 1, attempts);
    }
  }

  // ---------- A series of requests ----------

  /** A request of a series: what the models would answer, when it starts, and the clock during it. */
  datatype Turn = Turn(provider: nat -> Outcome, now: int, clock: nat -> int)

  /** One request of a series, with the timer before and after it. */
  datatype Link = Link(turn: Turn, timer: Option<int>, result: Completion, next: Option<int>)

  /** The model preferred after these requests. */
  function PreferredBy(first: string, earlier: seq<Link>): string {
    if earlier == [] then first else earlier[|earlier| - 1].result.selectedModel
  }

  function LastTimer(start: Option<int>, earlier: seq<Link>): Option<int> {
    if earlier == [] then start else earlier[|earlier| - 1].next
  }

  ghost predicate Answers(s: ModelSettings, preferred: string, link: Link) {
    && Completed(link.result, OrderAt(s, link.timer, preferred, link.turn.now), preferred, s.retryCount + 1,
                 link.turn.provider)
    && link.next == TimerAfter(s, link.timer, link.result.events, link.turn.clock)
  }

  /** Each request prefers what the one before came back with, and starts from its timer. */
  ghost predicate Chained(s: ModelSettings, first: string, start: Option<int>, links: seq<Link>) {
    forall j :: 0 <= j < |links| ==>
      Answers(s, PreferredBy(first, links[..j]), links[j]) && links[j].timer == LastTimer(start, links[..j])
  }

  lemma ChainGrows(s: ModelSettings, first: string, start: Option<int>, links: seq<Link>, link: Link)
    requires Chained(s, first, start, links)
    requires Answers(s, PreferredBy(first, links), link) && link.timer == LastTimer(start, links)
    ensures Chained(s, first, start, links + [link])
  {
    var all := links + [link];
    forall j | 0 <= j < |all|
      ensures Answers(s, PreferredBy(first, all[..j]), all[j]) && all[j].timer == LastTimer(start, all[..j])
    {
      if j < |links| {
        assert all[..j] == links[..j] && all[j] == links[j];
      } else {
        assert all[..j] == links && all[j] == link;
      }
    }
  }

  /** The models before the first occurrence of one. */
  function Preceding(order: seq<string>, x: string): (before: seq<string>)
    ensures |before| <= |order| && before == order[..|before|] && x !in before
    ensures |before| < |order| ==> order[|before|] == x
    ensures |before| == |order| <==> x !in order
  {
    if order == [] || order[0] == x then [] else [order[0]] + Preceding(order[1..], x)
  }

  /** A model is tried exactly when it is in the order and every answer to the models before it is an error. */
  lemma TriedIff(order: seq<string>, attempts: nat, events: seq<Event>, provider: nat -> Outcome, x: string)
    requires NoRepeats(order) && attempts > 0 && FollowsPlan(events, Plan(order, attempts), provider)
    ensures x in Models(events) <==> x in order && FailedUpTo(provider, AttemptsAt(Preceding(order, x), attempts))
  {
    if x in order {
      ModelIsTriedIff(order, attempts, events, provider, |Preceding(order, x)|);
      assert order[..|Preceding(order, x)|] == Preceding(order, x);
    } else {
      AbsentFromPlan(order, attempts, x);
    }
  }

  /** When a request tries the primary. With the timer in force the primary comes after the fallbacks, so
      they must all have failed; otherwise only a primary that is preferred or itself a fallback is tried
      at all, and only if the models before it failed. */
  ghost predicate TriesPrimaryWhenDue(s: ModelSettings, preferred: string, link: Link) {
    var attempts := s.retryCount + 1;
    s.primary in Models(link.result.events) <==>
      if link.timer.Some? && link.turn.now < link.timer.value then
        FailedUpTo(link.turn.provider, AttemptsAt(Preceding(Distinct([s.secondary, s.tertiary]), s.primary), attempts))
      else
        (s.primary == preferred || s.primary == s.secondary || s.primary == s.tertiary) &&
        FailedUpTo(link.turn.provider, AttemptsAt(Preceding(Distinct([preferred, s.secondary, s.tertiary]), s.primary), attempts))
  }

  lemma PrimaryIsTriedIff(s: ModelSettings, preferred: string, link: Link)
    requires Answers(s, preferred, link) && s.primary != ""
    ensures TriesPrimaryWhenDue(s, preferred, link)
  {
    var order := OrderAt(s, link.timer, preferred, link.turn.now);
    var isPrimarySuppressed := link.timer.Some? && link.turn.now < link.timer.value;
    DistinctFacts(Candidates(s, preferred, isPrimarySuppressed));
    TriedIff(order, s.retryCount + 1, link.result.events, link.turn.provider, s.primary);
    PrimaryIsInOrderIff(s, preferred, isPrimarySuppressed);
    PrimaryComesLast(s, preferred);
  }

  /** So it is at every request of a series. */
  lemma SeriesTriesPrimaryIff(s: ModelSettings, first: string, start: Option<int>, links: seq<Link>, j: nat)
    requires Chained(s, first, start, links) && j < |links| && s.primary != ""
    ensures TriesPrimaryWhenDue(s, PreferredBy(first, links[..j]), links[j])
  {
    PrimaryIsTriedIff(s, PreferredBy(first, links[..j]), links[j]);
  }

  function AttemptsAt(models: seq<string>, attempts: nat): nat {
    |models| * attempts
  }

  /** The first n answers of a request are errors. */
  ghost predicate FailedUpTo(provider: nat -> Outcome, n: nat) {
    forall i :: 0 <= i < n ==> provider(i).Error?
  }

  lemma PrimaryComesLast(s: ModelSettings, preferred: string)
    ensures Preceding(Distinct(Candidates(s, preferred, true)), s.primary)
         == Preceding(Distinct([s.secondary, s.tertiary]), s.primary)
  {
    var all, fallbacks := Candidates(s, preferred, true), [s.secondary, s.tertiary];
    assert all[..2] == fallbacks;
    DistinctFacts(fallbacks);
    PrecedingInPrefix(Distinct(fallbacks), Distinct(all), s.primary);
  }

  lemma {:induction false} PrecedingInPrefix(a: seq<string>, b: seq<string>, x: string)
    requires a == b || (x !in a && b == a + [x])
    ensures Preceding(b, x) == Preceding(a, x)
  {
  }

  /** A primary that is no fallback, once another model has answered, is tried again only while the timer
      is in force, and then exactly when every fallback fails on each of its attempts. */
  lemma ReturnsOnlyUnderTimer(s: ModelSettings, first: string, start: Option<int>, links: seq<Link>, j: nat)
    requires Chained(s, first, start, links) && 0 < j < |links| && s.primary != ""
    requires s.primary != s.secondary && s.primary != s.tertiary && links[j - 1].result.selectedModel != s.primary
    ensures TriesPrimaryOnlyUnderTimer(s, links[j])
  {
    SeriesTriesPrimaryIff(s, first, start, links, j);
    assert links[..j][j - 1] == links[j - 1];
    OnlyWhileSuppressed(s, PreferredBy(first, links[..j]), links[j]);
  }

  ghost predicate TriesPrimaryOnlyUnderTimer(s: ModelSettings, link: Link) {
    s.primary in Models(link.result.events) <==>
      link.timer.Some? && link.turn.now < link.timer.value &&
      FailedUpTo(link.turn.provider, AttemptsAt(Distinct([s.secondary, s.tertiary]), s.retryCount + 1))
  }

  lemma OnlyWhileSuppressed(s: ModelSettings, preferred: string, link: Link)
    requires s.primary != s.secondary && s.primary != s.tertiary && s.primary != preferred
    ensures TriesPrimaryWhenDue(s, preferred, link) ==> TriesPrimaryOnlyUnderTimer(s, link)
  {
    var fallbacks := Distinct([s.secondary, s.tertiary]);
    assert Preceding(fallbacks, s.primary) == fallbacks by {
      DistinctFacts([s.secondary, s.tertiary]);
    }
  }

  // ---------- The timer told by answers and times ----------

  /** A model that answered, and when. */
  datatype Answer = Answer(model: string, at: int)

  ghost predicate IsAnsweredBy(link: Link, a: Answer) {
    var events := link.result.events;
    events != [] && events[|events| - 1].outcome.Success? &&
    a == Answer(events[|events| - 1].model, link.turn.clock(|events| - 1))
  }

  /** The last answer in these requests, if any. */
  ghost predicate IsLastAnswer(links: seq<Link>, a: Option<Answer>) {
    match a
    case None => forall k :: 0 <= k < |links| ==> AllErrors(links[k].result.events)
    case Some(answer) =>
      exists i :: 0 <= i < |links| && IsAnsweredBy(links[i], answer) &&
        forall k :: i < k < |links| ==> AllErrors(links[k].result.events)
  }

  /** The first of three models that has a name is attempted first; nothing is if none has. */
  ghost predicate BeginsWith(events: seq<Event>, a: string, b: string, c: string) {
    var model := if a != "" then a else if b != "" then b else c;
    if model == "" then events == [] else events != [] && events[0].model == model
  }

  /** A primary that is no fallback is tried behind failing fallbacks only, or exactly if it is preferred. */
  ghost predicate IsPrimaryTriedWhen(s: ModelSettings, preferred: string, link: Link, isSuppressed: bool) {
    var fallbacks := {s.secondary, s.tertiary} - {""};
    s.primary != "" && s.primary !in fallbacks ==>
      (s.primary in Models(link.result.events) <==>
       if isSuppressed then FailedUpTo(link.turn.provider, |fallbacks| * (s.retryCount + 1)) else preferred == s.primary)
  }

  /** What the last answer means for a request. For the cooldown after an answer of another model the fallbacks
      come first, and a primary that is none of them is tried exactly when each of them fails on each attempt.
      Later, or if the primary answered, the preferred model comes first, and such a primary is tried exactly
      when it is the preferred model. */
  ghost predicate IsServedAfter(s: ModelSettings, preferred: string, link: Link, a: Option<Answer>) {
    var events := link.result.events;
    var isSuppressed := a.Some? && a.value.model != s.primary && link.turn.now < a.value.at + s.cooldownSeconds;
    && (if isSuppressed then BeginsWith(events, s.secondary, s.tertiary, s.primary)
        else BeginsWith(events, preferred, s.secondary, s.tertiary))
    && IsPrimaryTriedWhen(s, preferred, link, isSuppressed)
  }

  /** The timer that an answer leaves behind; without one so far, that of the start. */
  function TimerBehind(s: ModelSettings, start: Option<int>, a: Option<Answer>): Option<int> {
    match a
    case None => start
    case Some(answer) => if answer.model == s.primary then None else Some(answer.at + s.cooldownSeconds)
  }

  lemma {:induction false} TimerMeaning(s: ModelSettings, first: string, start: Option<int>, links: seq<Link>, a: Option<Answer>)
    requires Chained(s, first, start, links) && IsLastAnswer(links, a)
    ensures LastTimer(start, links) == TimerBehind(s, start, a)
  {
    if links != [] {
      var n := |links| - 1;
      assert Answers(s, PreferredBy(first, links[..n]), links[n]) && links[n].timer == LastTimer(start, links[..n]);
      NextTimer(s, PreferredBy(first, links[..n]), start, links[n]);
      if AllErrors(links[n].result.events) {
        ChainStart(s, first, start, links, n);
        EarlierAnswer(links, a);
        TimerMeaning(s, first, start, links[..n], a);
      } else {
        LastIsAnswer(links, a);
      }
    }
  }

  lemma NextTimer(s: ModelSettings, preferred: string, start: Option<int>, link: Link)
    requires Answers(s, preferred, link)
    ensures AllErrors(link.result.events) ==> link.next == link.timer
    ensures forall a :: IsAnsweredBy(link, a) ==> link.next == TimerBehind(s, start, Some(a))
  {
  }

  lemma ChainStart(s: ModelSettings, first: string, start: Option<int>, links: seq<Link>, n: nat)
    requires Chained(s, first, start, links) && n <= |links|
    ensures Chained(s, first, start, links[..n])
  {
    forall j | 0 <= j < n
      ensures Answers(s, PreferredBy(first, links[..n][..j]), links[..n][j])
      ensures links[..n][j].timer == LastTimer(start, links[..n][..j])
    {
      assert links[..n][..j] == links[..j] && links[..n][j] == links[j];
    }
  }

  lemma EarlierAnswer(links: seq<Link>, a: Option<Answer>)
    requires links != [] && IsLastAnswer(links, a) && AllErrors(links[|links| - 1].result.events)
    ensures IsLastAnswer(links[..|links| - 1], a)
  {
    var n := |links| - 1;
    if a.Some? {
      var i :| 0 <= i < |links| && IsAnsweredBy(links[i], a.value) &&
        forall k :: i < k < |links| ==> AllErrors(links[k].result.events);
      assert i < n;
      assert IsAnsweredBy(links[..n][i], a.value);
    }
  }

  lemma LastIsAnswer(links: seq<Link>, a: Option<Answer>)
    requires links != [] && IsLastAnswer(links, a) && !AllErrors(links[|links| - 1].result.events)
    ensures a.Some? && IsAnsweredBy(links[|links| - 1], a.value)
  {
  }

  lemma FirstIsAttempted(names: seq<string>, attempts: nat, events: seq<Event>, provider: nat -> Outcome)
    requires |names| == 3 && attempts > 0 && FollowsPlan(events, Plan(Distinct(names), attempts), provider)
    ensures BeginsWith(events, names[0], names[1], names[2])
  {
    var order := Distinct(names);
    DistinctStart(names);
    DistinctFacts(names);
    if order != [] {
      PlanPrefix(order, attempts, 0, 1);
      assert Plan(order[..0], attempts) + Repeat(order[0], 1) == [order[0]];
      assert Plan(order, attempts)[0] == order[0];
      assert Models(events)[0] == order[0];
    }
  }

  /** The order starts with the first name that is not empty. */
  lemma DistinctStart(names: seq<string>)
    requires |names| == 3
    ensures var order := Distinct(names);
      && (order == [] <==> names[0] == names[1] == names[2] == "")
      && (order != [] ==> order[0] == if names[0] != "" then names[0] else if names[1] != "" then names[1] else names[2])
  {
    assert names[..2][..1] == names[..1] && names[..1][..0] == [];
    assert Distinct(names[..1]) == if names[0] == "" then [] else [names[0]];
  }

  lemma FallbackCount(a: string, b: string)
    ensures |Distinct([a, b])| == |{a, b} - {""}|
  {
    assert [a, b][..1] == [a] && [a][..0] == [];
    assert Distinct([a]) == if a == "" then [] else [a];
    if a == "" {
      assert {a, b} - {""} == if b == "" then {} else {b};
    } else if b == "" || b == a {
      assert {a, b} - {""} == {a};
    } else {
      assert {a, b} - {""} == {a, b};
    }
  }

  lemma PrimaryByTimer(s: ModelSettings, preferred: string, link: Link)
    requires Answers(s, preferred, link)
    ensures IsPrimaryTriedWhen(s, preferred, link, link.timer.Some? && link.turn.now < link.timer.value)
  {
    if s.primary != "" {
      PrimaryIsTriedIff(s, preferred, link);
      PrimaryNoFallback(s, preferred);
    }
  }

  lemma BeginsByTimer(s: ModelSettings, preferred: string, link: Link)
    requires Answers(s, preferred, link)
    ensures if link.timer.Some? && link.turn.now < link.timer.value
            then BeginsWith(link.result.events, s.secondary, s.tertiary, s.primary)
            else BeginsWith(link.result.events, preferred, s.secondary, s.tertiary)
  {
    var isSuppressed := link.timer.Some? && link.turn.now < link.timer.value;
    FirstIsAttempted(Candidates(s, preferred, isSuppressed), s.retryCount + 1, link.result.events, link.turn.provider);
  }

  lemma ServedByTimer(s: ModelSettings, preferred: string, link: Link, a: Option<Answer>)
    requires Answers(s, preferred, link) && link.timer == TimerBehind(s, None, a)
    ensures IsServedAfter(s, preferred, link, a)
  {
    BeginsByTimer(s, preferred, link);
    PrimaryByTimer(s, preferred, link);
  }

  lemma PrimaryNoFallback(s: ModelSettings, preferred: string)
    requires s.primary != ""
    ensures s.primary !in {s.secondary, s.tertiary} ==>
      |Preceding(Distinct([s.secondary, s.tertiary]), s.primary)| == |{s.secondary, s.tertiary} - {""}|
    ensures preferred == s.primary ==> Preceding(Distinct([preferred, s.secondary, s.tertiary]), s.primary) == []
  {
    DistinctFacts([s.secondary, s.tertiary]);
    FallbackCount(s.secondary, s.tertiary);
    DistinctStart([preferred, s.secondary, s.tertiary]);
  }

  ghost predicate ServesRequest(s: ModelSettings, first: string, start: Option<int>, links: seq<Link>, j: nat, a: Option<Answer>)
    requires j < |links|
  {
    IsLastAnswer(links[..j], a) && (a.Some? || start.None?) ==>
      IsServedAfter(s, PreferredBy(first, links[..j]), links[j], a)
  }

  lemma RequestByAnswer(s: ModelSettings, first: string, start: Option<int>, links: seq<Link>, j: nat, a: Option<Answer>)
    requires Chained(s, first, start, links) && j < |links|
    ensures ServesRequest(s, first, start, links, j, a)
  {
    if IsLastAnswer(links[..j], a) && (a.Some? || start.None?) {
      ChainStart(s, first, start, links, j);
      TimerMeaning(s, first, start, links[..j], a);
      assert Answers(s, PreferredBy(first, links[..j]), links[j]);
      ServedByTimer(s, PreferredBy(first, links[..j]), links[j], a);
    }
  }

  ghost predicate ServesByAnswers(s: ModelSettings, first: string, start: Option<int>, links: seq<Link>) {
    forall j: nat, a :: j < |links| ==> ServesRequest(s, first, start, links, j, a)
  }

  /** Every request of a series is served as the last answer before it dictates. */
  lemma SeriesByAnswers(s: ModelSettings, first: string, start: Option<int>, links: seq<Link>)
    requires Chained(s, first, start, links)
    ensures ServesByAnswers(s, first, start, links)
  {
    forall j: nat, a | j < |links| ensures ServesRequest(s, first, start, links, j, a) {
      RequestByAnswer(s, first, start, links, j, a);
    }
  }

  lemma DistinctOfThree(a: string, b: string, c: string)
    requires a != "" && b != "" && c != "" && c != a && c != b
    ensures Distinct([a, b, c]) == if a == b then [a, c] else [a, b, c]
  {
    assert [a, b, c][..2] == [a, b] && [a, b][..1] == [a] && [a][..0] == [];
    assert Distinct([a]) == [a];
    assert Distinct([a, b]) == if a == b then [a] else [a, b];
  }

  lemma {:induction false} PlanOfSingles(order: seq<string>)
    ensures Plan(order, 1) == order
  {
    if order != [] {
      PlanOfSingles(order[..|order| - 1]);
    }
  }

  lemma FirstTurn(s: ModelSettings) returns (link: Link)
    requires s == ModelSettings("p", "s", "t", 0, 60)
    ensures Answers(s, "p", link) && "p" in Models(link.result.events) && link.result.selectedModel == "s"
    ensures link.timer == None && link.next == Some(60)
  {
    var failed, good := Event("p", Error("timeout")), Event("s", Success(0, 0, 0));
    var turn := Turn(i => if i == 0 then failed.outcome else good.outcome, 0, _ => 0);
    link := Link(turn, None, Completion("s", true, [failed, good]), Some(60));
    FirstPlan(s);
    SecondAnswers(["p", "s", "t"], failed, good, turn.provider);
    AnswerLinks(s, "p", link, ["p", "s", "t"]);
  }

  /** A request whose last event is the success of its plan, with the timer that this success sets. */
  lemma AnswerLinks(s: ModelSettings, preferred: string, link: Link, order: seq<string>)
    requires order == OrderAt(s, link.timer, preferred, link.turn.now) && Succeeded(link.result.events)
    requires FollowsPlan(link.result.events, Plan(order, s.retryCount + 1), link.turn.provider)
    requires link.result == Completion(link.result.events[|link.result.events| - 1].model, true, link.result.events)
    requires link.next == TimerAfter(s, link.timer, link.result.events, link.turn.clock)
    ensures Answers(s, preferred, link)
  {
  }

  lemma FirstPlan(s: ModelSettings)
    requires s == ModelSettings("p", "s", "t", 0, 60)
    ensures OrderAt(s, None, "p", 0) == ["p", "s", "t"] && Plan(["p", "s", "t"], 1) == ["p", "s", "t"]
  {
    DistinctOfThree("p", "s", "t");
    PlanOfSingles(["p", "s", "t"]);
  }

  lemma SecondAnswers(plan: seq<string>, failed: Event, good: Event, provider: nat -> Outcome)
    requires |plan| > 2 && failed.model == plan[0] && good.model == plan[1]
    requires failed.outcome.Error? && good.outcome.Success? && provider(0) == failed.outcome && provider(1) == good.outcome
    ensures FollowsPlan([failed, good], plan, provider) && failed.model in Models([failed, good])
  {
    assert Models([failed, good]) == [plan[0], plan[1]];
  }

  lemma SecondPlan(s: ModelSettings)
    requires s == ModelSettings("p", "s", "t", 0, 60)
    ensures OrderAt(s, Some(60), "s", 100) == ["s", "t"] && Plan(["s", "t"], 1) == ["s", "t"]
  {
    DistinctOfThree("s", "s", "t");
    PlanOfSingles(["s", "t"]);
  }

  lemma FirstAnswers(plan: seq<string>, good: Event, provider: nat -> Outcome)
    requires |plan| > 1 && good.model == plan[0] && good.outcome.Success? && provider(0) == good.outcome
    ensures FollowsPlan([good], plan, provider) && Models([good]) == [good.model]
  {
    assert Models([good]) == [plan[0]];
  }

  lemma SecondTurn(s: ModelSettings) returns (link: Link)
    requires s == ModelSettings("p", "s", "t", 0, 60)
    ensures Answers(s, "s", link) && "p" !in Models(link.result.events)
    ensures link.timer == Some(60) && link.turn.now == 100
  {
    var good := Event("s", Success(0, 0, 0));
    link := Link(Turn(_ => good.outcome, 100, _ => 100), Some(60), Completion("s", true, [good]), Some(160));
    SecondPlan(s);
    FirstAnswers(["s", "t"], good, link.turn.provider);
    AnswerLinks(s, "s", link, ["s", "t"]);
  }

  /** A run in which the cooldown has passed and the primary, which failed once, is not tried again. */
  lemma CooldownOverYetNotTried() returns (s: ModelSettings, links: seq<Link>)
    ensures Chained(s, s.primary, None, links) && |links| == 2
    ensures s.primary in Models(links[0].result.events) && s.primary !in Models(links[1].result.events)
    ensures links[1].timer.Some? && links[1].turn.now >= links[1].timer.value
  {
    s := ModelSettings("p", "s", "t", 0, 60);
    var a := FirstTurn(s);
    var b := SecondTurn(s);
    ChainGrows(s, "p", None, [], a);
    assert [] + [a] == [a];
    ChainGrows(s, "p", None, [a], b);
    links := [a] + [b];
  }
}
