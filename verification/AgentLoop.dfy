/** The agent loop as the program runs it: counters, sets and maps updated step by step, proved to
    follow the history of AgentHistory.dfy exactly. */
module AgentLoop {
  import opened Text
  import opened AgentHistory
  import opened AgentSafety

  /** The local variables of the loop that record tool calls. */
  datatype CallState = CallState(
    toolCallCount: nat,
    successfulToolNames: set<string>, lastOkResult: map<string, Envelope>, lastOkArgs: map<string, Args>,
    lastSignature: Option<Request>, repeatedToolCallCount: nat,
    lastToolName: string, repeatedSameToolNameCount: nat,
    window: seq<Request>, timeoutCounts: map<string, nat>,
    pendingName: string, pendingCount: nat)

  /** The other local variables of the loop. */
  datatype State = State(
    calls: CallState, stepCount: nat, traces: seq<Trace>,
    blockedIterations: nat, missingRequiredFinals: nat,
    formatFailureSteps: nat, consecutiveFormatFailures: nat,
    memory: seq<string>, reason: Reason, isFinished: bool)

  const START :=
    State(CallState(0, {}, map[], map[], None, 0, "", 0, [], map[], "", 0), 0, [], 0, 0, 0, 0, [],
          FatalRuntimeError, false)

  // ---------- The counters say what the history says ----------

  ghost predicate TracksCalls(e: Env, s: CallState, log: seq<Call>) {
    && s.toolCallCount == Executions(log)
    && s.successfulToolNames == OkNames(log)
    && TracksResults(s, log)
    && s.window == TakeLast(Signatures(log), e.cfg.windowSize)
    && TracksTimeouts(s.timeoutCounts, log)
    && Debt(s.pendingName, s.pendingCount) == Pending(log)
    && TracksStreaks(s, log)
  }

  ghost predicate TracksResults(s: CallState, log: seq<Call>) {
    forall name :: name in OkNames(log) ==>
      name in s.lastOkResult && s.lastOkResult[name] == Outcome(LastOk(log, name)) &&
      name in s.lastOkArgs && s.lastOkArgs[name] == EffectiveArgs(LastOk(log, name))
  }

  ghost predicate TracksTimeouts(counts: map<string, nat>, log: seq<Call>) {
    forall name :: TimeoutStreak(log, name) == if name in counts then counts[name] else 0
  }

  ghost predicate TracksStreaks(s: CallState, log: seq<Call>) {
    if log == [] then s.lastSignature == None && s.lastToolName == ""
    else
      var last := log[|log| - 1];
      && s.lastSignature == Some(Asked(last)) && s.repeatedToolCallCount == RequestStreak(log, Asked(last))
      && s.lastToolName == last.name && s.repeatedSameToolNameCount == NameStreak(log, last.name)
  }

  ghost predicate TracksTraces(e: Env, s: State, h: Hist) {
    && s.traces == h.traces && s.stepCount == |h.traces|
    && s.formatFailureSteps == CountStatus(h.traces, ParseError)
    && s.consecutiveFormatFailures == TrailingParseErrors(h.traces)
    && s.blockedIterations == BlockedRun(e.allowTools, h.traces)
    && (e.required !in OkNames(h.log) ==>
          s.missingRequiredFinals == CountStatus(h.traces, FinalBlockedMissingRequiredTool))
  }

  /** Every control variable agrees with the history so far. */
  ghost predicate Tracks(e: Env, s: State, h: Hist) {
    TracksCalls(e, s.calls, h.log) && TracksTraces(e, s, h)
  }

  /** What a branch must leave behind: the next history, and the right decision to go on or end. */
  ghost predicate Decides(e: Env, s: State, h: Hist) {
    && s.traces == h.traces && s.stepCount == |h.traces| > 0
    && s.isFinished == ExitAfter(e, h).Some?
    && (s.isFinished ==> s.reason == ExitAfter(e, h).value)
    && (!s.isFinished ==> TracksTraces(e, s, h))
  }

  ghost predicate Follows(e: Env, s: State, h: Hist) {
    && Decides(e, s, h)
    && (!s.isFinished ==> TracksCalls(e, s.calls, h.log))
    && s.calls.toolCallCount == Executions(h.log) + (if s.isFinished && s.reason == ToolCallLoop then 1 else 0)
    && s.calls.toolCallCount <= e.cfg.maxToolCalls
  }

  /** Where a step starts: not finished, in step with the history, budget left. */
  ghost predicate Ready(e: Env, s: State, h: Hist) {
    !s.isFinished && Tracks(e, s, h) && s.calls.toolCallCount < e.cfg.maxToolCalls && s.memory == []
  }

  lemma Snoc<T>(s: seq<T>, x: T)
    ensures (s + [x])[..|s|] == s && (s + [x])[|s|] == x
  {
  }

  lemma TracesSnoc(e: Env, traces: seq<Trace>, t: Trace)
    ensures var after := traces + [t];
      && after[|after| - 1] == t
      && CountStatus(after, ParseError) == CountStatus(traces, ParseError) + (if t.status == ParseError then 1 else 0)
      && CountStatus(after, FinalBlockedMissingRequiredTool) ==
         CountStatus(traces, FinalBlockedMissingRequiredTool) + (if t.status == FinalBlockedMissingRequiredTool then 1 else 0)
      && BlockedRun(e.allowTools, after) == BlockedNext(e.allowTools, BlockedRun(e.allowTools, traces), t.status)
      && TrailingParseErrors(after) == (if t.status == ParseError then TrailingParseErrors(traces) + 1 else 0)
  {
    Snoc(traces, t);
  }

  // ---------- Asking the model ----------

  /** Asks once, then repairs until an answer parses or the repairs run out. */
  method AskModel(e: Env, start: nat) returns (parse: Parse, next: nat, errors: nat)
    ensures next == start + Attempts(e.model, start, e.cfg.maxRepairs)
    ensures parse == e.model(next - 1).parse
    ensures ErrorsBefore(e.model, start) + errors == ErrorsBefore(e.model, next)
  {
    next := start + 1;
    parse := e.model(next - 1).parse;
    errors := e.model(next - 1).errorEvents;
    var repair := 0;
    while parse.Invalid? && repair < e.cfg.maxRepairs
      invariant 0 <= repair <= e.cfg.maxRepairs && next == start + repair + 1
      invariant parse == e.model(next - 1).parse
      invariant ErrorsBefore(e.model, start) + errors == ErrorsBefore(e.model, next)
      invariant start + Attempts(e.model, start, e.cfg.maxRepairs)
             == next - 1 + Attempts(e.model, next - 1, e.cfg.maxRepairs - repair)
    {
      next, repair := next + 1, repair + 1;
      parse := e.model(next - 1).parse;
      errors := errors + e.model(next - 1).errorEvents;
    }
  }

  // ---------- Branches of one step ----------

  method OnParseFailure(e: Env, s0: State, ghost h: Hist) returns (s: State)
    requires TracksTraces(e, s0, h) && s0.memory == []
    ensures Decides(e, s, Record(h, Invalid, ParseError, None)) && s.reason != ToolCallLoop
    ensures s.calls == s0.calls && s.memory == []
  {
    var consecutive := s0.consecutiveFormatFailures + 1;
    var trace := Trace(s0.stepCount + 1, Invalid, ParseError, None);
    var reason, isFinished := Running, false;
    if consecutive >= e.cfg.maxFormatFailures {
      reason, isFinished := FinalAnswer, true;
    }
    s := s0.(formatFailureSteps := s0.formatFailureSteps + 1, consecutiveFormatFailures := consecutive,
             traces := s0.traces + [trace], stepCount := s0.stepCount + 1,
             reason := reason, isFinished := isFinished);
    TracesSnoc(e, h.traces, trace);
  }

  method OnFinal(e: Env, s0: State, ghost h: Hist, memory: seq<string>) returns (s: State)
    requires TracksTraces(e, s0, h) && s0.memory == []
    requires s0.calls.successfulToolNames == OkNames(h.log)
    requires Debt(s0.calls.pendingName, s0.calls.pendingCount) == Pending(h.log)
    ensures Decides(e, s, Record(h, Valid(FinalOut(memory)), FinalVerdict(e, h.log), None)) && s.reason != ToolCallLoop
    ensures s.calls == s0.calls
    ensures s.memory == if FinalVerdict(e, h.log) == Final then memory else []
  {
    var status, reason, isFinished := Final, FinalAnswer, true;
    var missing, blocked, accepted := s0.missingRequiredFinals, s0.blockedIterations, [];
    if s0.calls.pendingName != "" {
      status, reason, isFinished := FinalBlockedValidationRetry, Running, false;
      if s0.calls.pendingCount >= 2 {
        reason, isFinished := ValidationRetryMissing, true;
      }
    } else if e.required != "" && e.required !in s0.calls.successfulToolNames {
      missing := missing + 1;
      status, reason, isFinished := FinalBlockedMissingRequiredTool, Running, false;
      if missing >= 2 {
        reason, isFinished := RequiredToolMissing, true;
      }
    } else {
      blocked, accepted := 0, memory;
    }
    var trace := Trace(s0.stepCount + 1, Valid(FinalOut(memory)), status, None);
    s := s0.(consecutiveFormatFailures := 0, missingRequiredFinals := missing, blockedIterations := blocked,
             traces := s0.traces + [trace], stepCount := s0.stepCount + 1,
             memory := accepted, reason := reason, isFinished := isFinished);
    TracesSnoc(e, h.traces, trace);
  }

  method OnStop(e: Env, s0: State, ghost h: Hist, memory: seq<string>) returns (s: State)
    requires TracksTraces(e, s0, h)
    ensures Decides(e, s, Record(h, Valid(StopOut(memory)), Stop, None)) && s.reason != ToolCallLoop
    ensures s.calls == s0.calls && s.memory == memory
  {
    var trace := Trace(s0.stepCount + 1, Valid(StopOut(memory)), Stop, None);
    s := s0.(consecutiveFormatFailures := 0, blockedIterations := 0, reason := StopResponse, memory := memory,
             isFinished := true, traces := s0.traces + [trace], stepCount := s0.stepCount + 1);
    Snoc(h.traces, trace);
  }

  /** The blocked-call exit shared by disabled tools and by repeats of a success. */
  method OnBlocked(e: Env, s0: State, ghost h: Hist, parse: Parse, r: Request, blocked: nat) returns (s: State)
    requires TracksTraces(e, s0, h) && s0.memory == []
    requires blocked == BlockedNext(e.allowTools, BlockedRun(e.allowTools, h.traces), ToolCallBlocked)
    ensures Decides(e, s, Record(h, parse, ToolCallBlocked, Some(r))) && s.reason != ToolCallLoop
    ensures s.calls == s0.calls && s.memory == []
  {
    var trace := Trace(s0.stepCount + 1, parse, ToolCallBlocked, Some(r));
    var isFinished := blocked >= e.cfg.maxBlocked;
    s := s0.(consecutiveFormatFailures := 0, blockedIterations := blocked, isFinished := isFinished,
             reason := if isFinished then ToolCallBlockedLimit else Running, traces := s0.traces + [trace], stepCount := s0.stepCount + 1);
    TracesSnoc(e, h.traces, trace);
  }

  // ---------- Tool calls ----------

  /** May a tool that already succeeded run again with these arguments? */
  method IsRepeatAllowed(s: CallState, ghost log: seq<Call>, r: Request) returns (allowRepeat: bool)
    requires TracksResults(s, log) && r.name in OkNames(log)
    ensures allowRepeat == MayRepeat(LastOk(log, r.name), r)
  {
    var previousOk := s.lastOkResult[r.name];
    var previousArgs := s.lastOkArgs[r.name];
    allowRepeat := false;
    if r.name == READ_EMAIL {
      var requestedMax := r.args.maxItems.GetOr(NumberOr(previousArgs.maxItems, 10));
      if previousOk.count < requestedMax {
        var prevUnreadOnly := previousArgs.unreadOnly.GetOr(true);
        var newUnreadOnly := r.args.unreadOnly.GetOr(prevUnreadOnly);
        var prevSinceHours := NumberOr(previousArgs.sinceHours, 24);
        var newSinceHours := NumberOr(r.args.sinceHours, prevSinceHours);
        if (prevUnreadOnly && !newUnreadOnly) || newSinceHours > prevSinceHours {
          allowRepeat := true;
        }
      }
    }
    if r.name == DIGEST_NEWS {
      var prevSinceHours := NumberOr(previousArgs.sinceHours, 24);
      var newSinceHours := NumberOr(r.args.sinceHours, prevSinceHours);
      var prevSinceTs := NumberOr(previousArgs.sinceUnixTs, 0);
      var newSinceTs := NumberOr(r.args.sinceUnixTs, prevSinceTs);
      var isBroader := newSinceHours > prevSinceHours ||
                       (prevSinceTs > 0 && (newSinceTs == 0 || newSinceTs < prevSinceTs));
      if previousOk.count == 0 && previousOk.filteredOutByTime > 0 && isBroader {
        allowRepeat := true;
      }
    }
    if r.name == TOPIC_DIGEST {
      if !previousArgs.fetchUnread && r.args.fetchUnread {
        allowRepeat := true;
      } else if !previousArgs.fetchUnread && !r.args.fetchUnread {
        if Key(previousArgs.topic) != Key(r.args.topic) {
          allowRepeat := true;
        } else {
          var prevChannels := NormalizeEntries(previousArgs.channels);
          var newChannels := NormalizeEntries(r.args.channels);
          var prevKeywords := NormalizeEntries(previousArgs.keywords);
          var newKeywords := NormalizeEntries(r.args.keywords);
          if prevChannels != newChannels || prevKeywords != newKeywords {
            allowRepeat := true;
          }
        }
      }
    }
  }

  /** The trimmed lower-case entries that are not blank; their order does not matter. */
  method NormalizeEntries(items: seq<string>) returns (entries: multiset<string>)
    ensures entries == Entries(items)
  {
    entries := multiset{};
    for k := 0 to |items|
      invariant entries == Entries(items[..k])
    {
      assert items[..k + 1][..k] == items[..k];
      if Strip(items[k]) != "" {
        entries := entries + multiset{Lower(Strip(items[k]))};
      }
    }
    assert items[..|items|] == items;
  }

  method CountSignatureInWindow(window: seq<Request>, signature: Request) returns (n: nat)
    ensures n == Count(window, signature)
  {
    n := 0;
    for k := 0 to |window|
      invariant n == Count(window[..k], signature)
    {
      assert window[..k + 1][..k] == window[..k];
      if window[k] == signature {
        n := n + 1;
      }
    }
    assert window[..|window|] == window;
  }

  /** Appends to the window and drops the oldest entries beyond its size. */
  method AppendToWindow(window0: seq<Request>, signature: Request, maxSize: nat) returns (window: seq<Request>)
    ensures window == TakeLast(window0 + [signature], maxSize)
  {
    var all := window0 + [signature];
    window := all;
    while |window| > maxSize
      invariant |window| <= |all| && window == all[|all| - |window|..]
      invariant |window| == |all| || |window| >= maxSize
    {
      window := window[1..];
    }
  }

  /** Counts the call and its repeats; reports a loop before anything is executed. */
  method CheckLoop(e: Env, s0: CallState, ghost log: seq<Call>, r: Request)
    returns (s: CallState, isLoop: bool)
    requires s0.window == TakeLast(Signatures(log), e.cfg.windowSize) && TracksStreaks(s0, log) && r.name != ""
    ensures isLoop == LoopDetected(e.cfg, log, r)
    ensures s.toolCallCount == s0.toolCallCount + 1
    ensures !isLoop ==> s == s0.(toolCallCount := s0.toolCallCount + 1,
                                 lastSignature := Some(r), repeatedToolCallCount := RequestStreak(log, r) + 1,
                                 lastToolName := r.name, repeatedSameToolNameCount := NameStreak(log, r.name) + 1)
  {
    s := s0.(toolCallCount := s0.toolCallCount + 1);
    var seen := CountSignatureInWindow(s0.window, r);
    if seen >= e.cfg.maxSameInWindow - 1 {
      return s, true;
    }
    var repeated := if s0.lastSignature == Some(r) then s0.repeatedToolCallCount + 1 else 1;
    var sameName := if s0.lastToolName == r.name then s0.repeatedSameToolNameCount + 1 else 1;
    StreaksContinue(s0, log, r);
    s := s0.(toolCallCount := s0.toolCallCount + 1, lastSignature := Some(r), repeatedToolCallCount := repeated,
             lastToolName := r.name, repeatedSameToolNameCount := sameName);
    isLoop := repeated >= 3 || sameName >= 3;
  }

  lemma StreaksContinue(s: CallState, log: seq<Call>, r: Request)
    requires TracksStreaks(s, log) && r.name != ""
    ensures RequestStreak(log, r) == if s.lastSignature == Some(r) then s.repeatedToolCallCount else 0
    ensures NameStreak(log, r.name) == if s.lastToolName == r.name then s.repeatedSameToolNameCount else 0
  {
  }

  method BuildDigestAutoRetryArgs(args: Args, v: Envelope) returns (wider: Option<Args>)
    ensures wider == DigestRetryArgs(args, v)
  {
    wider := None;
    if !v.ok {
      return;
    }
    if v.count != 0 || v.filteredOutByTime <= 0 {
      return;
    }
    var originalSinceHours := NumberOr(args.sinceHours, 24);
    if originalSinceHours >= 168 {
      return;
    }
    var retrySinceHours := if originalSinceHours < 72 then 72 else 168;
    var retryArgs := args.(sinceHours := Some(retrySinceHours));
    if NumberOr(retryArgs.sinceUnixTs, 0) > 0 {
      retryArgs := retryArgs.(sinceUnixTs := Some(0));
    }
    wider := Some(retryArgs);
  }

  /** Executes a counted call; an empty digest with budget left is retried once with wider arguments. */
  method ExecuteCall(e: Env, s0: CallState, ghost log: seq<Call>, r: Request)
    returns (s: CallState, c: Call, toolResult: Envelope, toolArgs: Args)
    requires s0.toolCallCount == Executions(log) + 1 <= e.cfg.maxToolCalls
    ensures c == Execute(e, log, r) && toolResult == Outcome(c) && toolArgs == EffectiveArgs(c)
    ensures s == s0.(toolCallCount := Executions(log + [c])) && s.toolCallCount <= e.cfg.maxToolCalls
  {
    s := s0;
    toolResult, toolArgs := e.tools(s.toolCallCount - 1), r.args;
    c := Call(r.name, r.args, toolResult, None);
    if r.name == DIGEST_NEWS && toolResult.ok && s.toolCallCount < e.cfg.maxToolCalls {
      var retryArgs := BuildDigestAutoRetryArgs(r.args, toolResult);
      if retryArgs.Some? {
        s := s.(toolCallCount := s.toolCallCount + 1);
        toolResult := e.tools(s.toolCallCount - 1);
        toolArgs := retryArgs.value;
        c := c.(retry := Some(Retry(toolArgs, toolResult)));
      }
    }
    Snoc(log, c);
  }

  method CountTimeout(counts0: map<string, nat>, ghost log: seq<Call>, c: Call, toolResult: Envelope)
    returns (counts: map<string, nat>)
    requires TracksTimeouts(counts0, log) && toolResult == Outcome(c)
    ensures TracksTimeouts(counts, log + [c])
  {
    if !toolResult.ok && toolResult.error.Some? && toolResult.error.value.code == "TIMEOUT" {
      var before := if c.name in counts0 then counts0[c.name] else 0;
      assert before == TimeoutStreak(log, c.name);
      counts := counts0[c.name := before + 1];
    } else {
      counts := counts0[c.name := 0];
    }
    Snoc(log, c);
  }

  method RememberSuccess(s0: CallState, ghost log: seq<Call>, c: Call, toolResult: Envelope, toolArgs: Args)
    returns (s: CallState)
    requires s0.successfulToolNames == OkNames(log) && TracksResults(s0, log)
    requires toolResult == Outcome(c) && toolArgs == EffectiveArgs(c)
    ensures s == s0.(successfulToolNames := s.successfulToolNames, lastOkResult := s.lastOkResult,
                     lastOkArgs := s.lastOkArgs)
    ensures s.successfulToolNames == OkNames(log + [c]) && TracksResults(s, log + [c])
  {
    s := s0;
    if toolResult.ok {
      s := s.(successfulToolNames := s.successfulToolNames + {c.name},
              lastOkResult := s.lastOkResult[c.name := toolResult],
              lastOkArgs := s.lastOkArgs[c.name := toolArgs]);
    }
    Snoc(log, c);
  }

  /** A success of the pending tool clears the debt; another rejection adds to it. */
  method BookDebt(pending: Debt, ghost log: seq<Call>, c: Call, toolResult: Envelope) returns (owed: Debt)
    requires pending == Pending(log) && toolResult == Outcome(c)
    ensures owed == Pending(log + [c])
  {
    owed := pending;
    if toolResult.ok {
      if c.name == pending.name {
        owed := Debt("", 0);
      }
    } else if toolResult.error.Some? && toolResult.error.value.code == "VALIDATION_ERROR" {
      owed := Debt(c.name, pending.count + 1);
    }
    Snoc(log, c);
  }

  /** Books the result of an executed call: timeouts, successes, owed corrections, the window. */
  method RecordResult(e: Env, s0: CallState, ghost log: seq<Call>, c: Call, toolResult: Envelope, toolArgs: Args)
    returns (s: CallState)
    requires toolResult == Outcome(c) && toolArgs == EffectiveArgs(c)
    requires s0.successfulToolNames == OkNames(log) && TracksResults(s0, log)
    requires s0.window == TakeLast(Signatures(log), e.cfg.windowSize)
    requires TracksTimeouts(s0.timeoutCounts, log)
    requires Debt(s0.pendingName, s0.pendingCount) == Pending(log)
    requires s0.toolCallCount == Executions(log + [c])
    requires s0.lastSignature == Some(Asked(c)) && s0.repeatedToolCallCount == RequestStreak(log, Asked(c)) + 1
    requires s0.lastToolName == c.name && s0.repeatedSameToolNameCount == NameStreak(log, c.name) + 1
    ensures TracksCalls(e, s, log + [c])
    ensures s.toolCallCount == s0.toolCallCount
  {
    var timeoutCounts := CountTimeout(s0.timeoutCounts, log, c, toolResult);
    s := RememberSuccess(s0, log, c, toolResult, toolArgs);
    var owed := BookDebt(Debt(s.pendingName, s.pendingCount), log, c, toolResult);
    var window := AppendToWindow(s.window, Asked(c), e.cfg.windowSize);
    s := s.(timeoutCounts := timeoutCounts, pendingName := owed.name, pendingCount := owed.count, window := window);
    WindowSnoc(log, c, e.cfg.windowSize);
    Snoc(log, c);
  }

  lemma WindowSnoc(log: seq<Call>, c: Call, n: nat)
    requires n >= 1
    ensures TakeLast(TakeLast(Signatures(log), n) + [Asked(c)], n) == TakeLast(Signatures(log + [c]), n)
  {
    assert Signatures(log + [c]) == Signatures(log) + [Asked(c)];
    WindowOfWindow(Signatures(log), Asked(c), n);
  }

  lemma WindowOfWindow<T>(s: seq<T>, x: T, n: nat)
    requires n >= 1
    ensures TakeLast(TakeLast(s, n) + [x], n) == TakeLast(s + [x], n)
  {
  }

  method OnLoop(e: Env, s0: State, ghost h: Hist, parse: Parse, r: Request) returns (s: State)
    requires s0.traces == h.traces && s0.stepCount == |h.traces| && s0.memory == []
    requires s0.calls.toolCallCount == Executions(h.log) + 1 <= e.cfg.maxToolCalls
    ensures Follows(e, s, Record(h, parse, RepeatedToolCallLoop, Some(r))) && s.memory == []
  {
    var trace := Trace(s0.stepCount + 1, parse, RepeatedToolCallLoop, Some(r));
    s := s0.(reason := ToolCallLoop, isFinished := true,
             traces := s0.traces + [trace], stepCount := s0.stepCount + 1);
    Snoc(h.traces, trace);
  }

  /** What follows once a tool was asked for: blocked, a loop, or an executed call. */
  ghost function AfterToolCall(e: Env, h: Hist, parse: Parse, r: Request): Hist {
    if !e.allowTools || Redundant(h.log, r) then Record(h, parse, ToolCallBlocked, Some(r))
    else if LoopDetected(e.cfg, h.log, r) then Record(h, parse, RepeatedToolCallLoop, Some(r))
    else AfterExecution(h, parse, Execute(e, h.log, r))
  }

  ghost function AfterExecution(h: Hist, parse: Parse, c: Call): Hist {
    Record(h.(log := h.log + [c]), parse, ExecutedStatus(h.log + [c]), Some(Request(c.name, EffectiveArgs(c))))
  }

  method OnToolCall(e: Env, s0: State, ghost h: Hist, parse: Parse, r: Request) returns (s: State, c: Option<Call>)
    requires Ready(e, s0, h) && r.name != ""
    ensures Follows(e, s, AfterToolCall(e, h, parse, r)) && s.memory == []
    ensures AfterToolCall(e, h, parse, r).log == Extended(h.log, c)
  {
    var isBlocked := !e.allowTools;
    if e.allowTools && r.name in s0.calls.successfulToolNames {
      var allowRepeat := IsRepeatAllowed(s0.calls, h.log, r);
      isBlocked := !allowRepeat;
    }
    if isBlocked {
      var blocked := (if e.allowTools then 0 else s0.blockedIterations) + 1;
      s := OnBlocked(e, s0, h, parse, r, blocked);
      c := None;
    } else {
      s, c := OnFreshCall(e, s0, h, parse, r);
    }
  }

  function Extended(log: seq<Call>, c: Option<Call>): seq<Call> {
    if c.Some? then log + [c.value] else log
  }

  /** A call that is neither disabled nor a pointless repeat: loop check, execution, booking. */
  method OnFreshCall(e: Env, s0: State, ghost h: Hist, parse: Parse, r: Request) returns (s: State, c: Option<Call>)
    requires Ready(e, s0, h) && r.name != ""
    ensures Follows(e, s, if LoopDetected(e.cfg, h.log, r) then Record(h, parse, RepeatedToolCallLoop, Some(r))
                          else AfterExecution(h, parse, Execute(e, h.log, r)))
    ensures s.memory == []
    ensures c == if LoopDetected(e.cfg, h.log, r) then None else Some(Execute(e, h.log, r))
  {
    var calls, isLoop := CheckLoop(e, s0.calls, h.log, r);
    if isLoop {
      s := OnLoop(e, s0.(calls := calls), h, parse, r);
      return s, None;
    }
    var call, toolResult, toolArgs;
    calls, call, toolResult, toolArgs := ExecuteCall(e, calls, h.log, r);
    calls := RecordResult(e, calls, h.log, call, toolResult, toolArgs);
    var status := JudgeResult(calls.timeoutCounts, h.log, call, toolResult);
    s := FinishCall(e, s0.(calls := calls), h, parse, call, toolResult, toolArgs, status);
    c := Some(call);
  }

  /** Has the mail tool failed because no mail account is configured? */
  method IsTerminalConfigError(toolResult: Envelope) returns (isReadEmailConfigError: bool)
    ensures isReadEmailConfigError == IsEmailConfigError(toolResult)
  {
    isReadEmailConfigError := false;
    if !toolResult.ok && toolResult.error.Some? {
      var errorCode := Strip(toolResult.error.value.code);
      var errorMessage := Lower(Strip(toolResult.error.value.message));
      isReadEmailConfigError :=
        toolResult.toolName == "read_email" && errorCode == "EXECUTION_ERROR" &&
        Contains(errorMessage, "emailreader settings") && Contains(errorMessage, "email is empty");
    }
  }

  /** The verdict on an executed call. */
  method JudgeResult(counts: map<string, nat>, ghost log: seq<Call>, c: Call, toolResult: Envelope) returns (status: Status)
    requires TracksTimeouts(counts, log + [c]) && toolResult == Outcome(c)
    ensures status == ExecutedStatus(log + [c]) && IsExecuted(status)
  {
    Snoc(log, c);
    var isConfigError := IsTerminalConfigError(toolResult);
    if isConfigError {
      return ToolConfigurationError;
    }
    var timeoutCount := if c.name in counts then counts[c.name] else 0;
    assert timeoutCount == TimeoutStreak(log + [c], c.name);
    var maxTimeoutsPerTool := 2;
    status := if timeoutCount >= maxTimeoutsPerTool then ToolTimeoutLimit else ToolCall;
  }

  lemma StillMissing(required: string, log: seq<Call>, c: Call)
    ensures required !in OkNames(log + [c]) ==> required !in OkNames(log) && !(Outcome(c).ok && c.name == required)
  {
    Snoc(log, c);
  }

  /** Records the trace of an executed call; a configuration error or a second timeout ends the run. */
  method FinishCall(e: Env, s0: State, ghost h: Hist, parse: Parse, c: Call, toolResult: Envelope, toolArgs: Args,
                    status: Status)
    returns (s: State)
    requires TracksTraces(e, s0, h) && s0.memory == [] && IsExecuted(status)
    requires toolResult == Outcome(c) && toolArgs == EffectiveArgs(c)
    ensures Decides(e, s, Record(h.(log := h.log + [c]), parse, status, Some(Request(c.name, EffectiveArgs(c)))))
    ensures s.reason != ToolCallLoop
    ensures s.calls == s0.calls && s.memory == []
  {
    var missing := if toolResult.ok && e.required != "" && c.name == e.required then 0 else s0.missingRequiredFinals;
    var isFinished := status != ToolCall;
    var reason := if status == ToolConfigurationError then ConfigurationError
                  else if status == ToolTimeoutLimit then TimeoutLimit else Running;
    var trace := Trace(s0.stepCount + 1, parse, status, Some(Request(c.name, toolArgs)));
    s := s0.(missingRequiredFinals := missing, consecutiveFormatFailures := 0, blockedIterations := 0,
             reason := reason, isFinished := isFinished,
             traces := s0.traces + [trace], stepCount := s0.stepCount + 1);
    StillMissing(e.required, h.log, c);
    TracesSnoc(e, h.traces, trace);
  }

  // ---------- The run ----------

  datatype Result = Result(reason: Reason, stepCount: nat, toolCallCount: nat, memory: seq<string>,
                           traces: seq<Trace>)

  /** The memory candidates of a run: those of an accepted final answer or of a stop response. */
  function AcceptedMemory(traces: seq<Trace>): seq<string> {
    if traces == [] then []
    else match traces[|traces| - 1]
    case Trace(_, Valid(FinalOut(memory)), Final, _) => memory
    case Trace(_, Valid(StopOut(memory)), Stop, _) => memory
    case _ => []
  }

  method Step(e: Env, s0: State, log0: seq<Call>, parse: Parse) returns (s: State, log: seq<Call>)
    requires Ready(e, s0, Hist(s0.traces, log0))
    ensures log == Advance(e, Hist(s0.traces, log0), parse).log
    ensures Follows(e, s, Advance(e, Hist(s0.traces, log0), parse))
    ensures s.memory == AcceptedMemory(s.traces)
    ensures s.memory != [] ==> s.isFinished
  {
    ghost var h := Hist(s0.traces, log0);
    if parse.Valid? && parse.output.ToolOut? {
      var name := if parse.output.action == "" then "unknown_tool" else parse.output.action;
      var r, c := Request(name, parse.output.args), None;
      s, c := OnToolCall(e, s0, h, parse, r);
      log := Extended(log0, c);
      AdvanceCalls(e, h, parse, r);
    } else {
      s := OnReply(e, s0, h, parse);
      log := log0;
      AdvanceReplies(e, h, parse);
    }
  }

  lemma AdvanceCalls(e: Env, h: Hist, parse: Parse, r: Request)
    requires parse.Valid? && parse.output.ToolOut? && r == Request(ToolName(parse.output.action), parse.output.args)
    ensures Advance(e, h, parse) == AfterToolCall(e, h, parse, r)
    ensures AcceptedMemory(AfterToolCall(e, h, parse, r).traces) == []
  {
  }

  lemma AdvanceReplies(e: Env, h: Hist, parse: Parse)
    requires parse.Invalid? || !parse.output.ToolOut?
    ensures Advance(e, h, parse) == Record(h, parse, ReplyStatus(e, h.log, parse), None)
  {
  }

  /** How a step without a tool call is recorded. */
  function ReplyStatus(e: Env, log: seq<Call>, parse: Parse): Status {
    if parse.Invalid? then ParseError else if parse.output.StopOut? then Stop else FinalVerdict(e, log)
  }

  method OnReply(e: Env, s0: State, ghost h: Hist, parse: Parse) returns (s: State)
    requires Ready(e, s0, h) && (parse.Invalid? || !parse.output.ToolOut?)
    ensures Follows(e, s, Record(h, parse, ReplyStatus(e, h.log, parse), None))
    ensures s.memory == AcceptedMemory(s.traces) && (s.memory != [] ==> s.isFinished)
  {
    match parse
    case Invalid =>
      s := OnParseFailure(e, s0, h);
    case Valid(FinalOut(memory)) =>
      s := OnFinal(e, s0, h, memory);
    case Valid(StopOut(memory)) =>
      s := OnStop(e, s0, h, memory);
  }

  /** Between steps: the run is in step with the history, and has ended exactly if it should have. */
  ghost predicate InStep(e: Env, s: State, log: seq<Call>, asked: nat, llmErrors: nat) {
    && Hist(s.traces, log) == History(e, s.stepCount)
    && asked == AskedBefore(e, s.stepCount) && llmErrors == ErrorsBefore(e.model, asked)
    && s.memory == AcceptedMemory(s.traces)
    && s.calls.toolCallCount == Executions(log) + (if s.isFinished && s.reason == ToolCallLoop then 1 else 0)
    && s.calls.toolCallCount <= e.cfg.maxToolCalls
    && (if s.isFinished then EndsAt(e, s.stepCount, s.reason)
        else Reached(e, s.stepCount) && ExitAfter(e, History(e, s.stepCount)).None? && s.memory == [] &&
             Tracks(e, s, History(e, s.stepCount)))
  }

  lemma DecisionIsPolicy(e: Env, s: State, log: seq<Call>, asked: nat, llmErrors: nat)
    requires InStep(e, s, log, asked, llmErrors) && !s.isFinished
    ensures Evaluate(e.cfg, s.stepCount, s.calls.toolCallCount, e.elapsed(s.stepCount), llmErrors,
                     s.formatFailureSteps) == PolicyStop(e, s.stepCount)
  {
  }

  /** While no limit is due, steps and calls are left. */
  lemma PolicyLeavesBudget(e: Env, n: nat)
    ensures PolicyStop(e, n).None? ==> n < e.cfg.maxSteps && Executions(History(e, n).log) < e.cfg.maxToolCalls
  {
  }

  lemma HistoryStep(e: Env, n: nat)
    ensures var k := AskedBefore(e, n) + Attempts(e.model, AskedBefore(e, n), e.cfg.maxRepairs);
      AskedBefore(e, n + 1) == k && History(e, n + 1) == Advance(e, History(e, n), e.model(k - 1).parse)
  {
  }

  lemma StepStaysInStep(e: Env, n: nat, h: Hist, s: State, asked: nat, errors: nat)
    requires Reached(e, n) && ExitAfter(e, History(e, n)).None? && PolicyStop(e, n).None?
    requires asked == AskedBefore(e, n + 1) && errors == ErrorsBefore(e.model, asked)
    requires h == History(e, n + 1) && |h.traces| == n + 1 && Follows(e, s, h)
    requires s.memory == AcceptedMemory(s.traces) && (s.memory != [] ==> s.isFinished)
    ensures InStep(e, s, h.log, asked, errors) && s.stepCount == n + 1
  {
    assert Reached(e, n + 1);
  }

  lemma AdvanceAddsOneTrace(e: Env, h: Hist, parse: Parse)
    ensures |Advance(e, h, parse).traces| == |h.traces| + 1
  {
  }

  lemma StepFollowsHistory(e: Env, n: nat, h: Hist, parse: Parse, asked0: nat, asked: nat)
    requires h == History(e, n) && |h.traces| == n && asked0 == AskedBefore(e, n)
    requires asked == asked0 + Attempts(e.model, asked0, e.cfg.maxRepairs) && parse == e.model(asked - 1).parse
    ensures History(e, n + 1) == Advance(e, h, parse) && AskedBefore(e, n + 1) == asked
    ensures |History(e, n + 1).traces| == n + 1
  {
    HistoryStep(e, n);
    AdvanceAddsOneTrace(e, h, parse);
  }

  lemma StartsInStep(e: Env)
    ensures InStep(e, START, [], 0, 0)
  {
  }

  /** One more step of a run that no limit has ended. */
  method AskAndStep(e: Env, s0: State, log0: seq<Call>, asked0: nat, llmErrors0: nat)
    returns (s: State, log: seq<Call>, asked: nat, llmErrors: nat)
    requires InStep(e, s0, log0, asked0, llmErrors0) && !s0.isFinished && PolicyStop(e, s0.stepCount).None?
    ensures InStep(e, s, log, asked, llmErrors) && s.stepCount == s0.stepCount + 1
  {
    ghost var n, h := s0.stepCount, Hist(s0.traces, log0);
    PolicyLeavesBudget(e, n);
    var parse, errors;
    parse, asked, errors := AskModel(e, asked0);
    llmErrors := llmErrors0 + errors;
    s, log := Step(e, s0, log0, parse);
    StepFollowsHistory(e, n, h, parse, asked0, asked);
    StepStaysInStep(e, n, History(e, n + 1), s, asked, llmErrors);
  }

  /** Runs to the end against any model, tools and clock. The result is the one the history
      dictates: the run stops at the first step at which a limit or a verdict ends it. */
  method Run(env: Env) returns (result: Result, log: seq<Call>, asked: nat)
    ensures var e := env.(required := Strip(env.required));
      && EndsAt(e, result.stepCount, result.reason)
      && Hist(result.traces, log) == History(e, result.stepCount)
      && asked == AskedBefore(e, result.stepCount)
      && result.memory == AcceptedMemory(result.traces)
      && result.toolCallCount == Executions(log) + (if result.reason == ToolCallLoop then 1 else 0)
      && result.toolCallCount <= e.cfg.maxToolCalls
    ensures SafeRun(env.(required := Strip(env.required)), Hist(result.traces, log), result.stepCount, asked,
                    result.reason)
  {
    var e := env.(required := Strip(env.required));
    var s := START;
    log, asked := [], 0;
    var llmErrors := 0;
    StartsInStep(e);
    while !s.isFinished
      invariant InStep(e, s, log, asked, llmErrors)
      decreases e.cfg.maxSteps - s.stepCount, !s.isFinished
    {
      var decision := Evaluate(e.cfg, s.stepCount, s.calls.toolCallCount, e.elapsed(s.stepCount), llmErrors,
                               s.formatFailureSteps);
      DecisionIsPolicy(e, s, log, asked, llmErrors);
      PolicyLeavesBudget(e, s.stepCount);
      PolicyIsNoVerdict(e, s.stepCount);
      if decision.Some? {
        s := s.(reason := decision.value, isFinished := true);
      } else {
        s, log, asked, llmErrors := AskAndStep(e, s, log, asked, llmErrors);
      }
    }
    result := Result(s.reason, s.stepCount, s.calls.toolCallCount, s.memory, s.traces);
    RunIsSafe(e, s.stepCount, s.reason);
  }
}
