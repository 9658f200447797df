/** What a run of the agent loop should do, told from its history alone.

    The loop itself (AgentLoop.dfy) steers by some fifteen counters, sets and maps. Here there are
    none: every decision is a function of the calls executed so far and the statuses recorded so
    far. The model, the tools and the clock are arbitrary streams, so a statement about every
    stream covers every language model and every tool. */
module AgentHistory {
  import opened Text

  // ---------- Settings and inputs ----------

  datatype RawSettings = RawSettings(
    maxSteps: nat, maxToolCalls: nat, maxExecutionSeconds: nat,
    windowSize: nat, maxSameInWindow: nat, maxBlocked: nat,
    extraPerLlmError: nat, extraPerFormatFailure: nat, maxExtra: nat,
    maxRepairs: nat, maxFormatFailures: nat)

  /** The lower bounds that the settings schema imposes. */
  type Settings = c: RawSettings |
    c.maxSteps >= 1 && c.windowSize >= 2 && c.maxSameInWindow >= 2 && c.maxBlocked >= 1 &&
    c.maxRepairs >= 1 && c.maxFormatFailures >= 1
    witness RawSettings(1, 0, 1, 2, 2, 1, 0, 0, 0, 1, 1)

  /** Tool arguments: the keys that the loop looks at, and everything else in one opaque part. */
  datatype Args = Args(maxItems: Option<int>, unreadOnly: Option<bool>, sinceHours: Option<int>,
                       sinceUnixTs: Option<int>, fetchUnread: bool, topic: string,
                       channels: seq<string>, keywords: seq<string>, rest: string)

  datatype Request = Request(name: string, args: Args)

  datatype Output =
    | FinalOut(memory: seq<string>)
    | StopOut(memory: seq<string>)
    | ToolOut(action: string, args: Args)

  datatype Parse = Invalid | Valid(output: Output)

  /** One answer of the language model: how it parses, and how many model errors it took. */
  datatype Reply = Reply(parse: Parse, errorEvents: nat)

  datatype ToolError = ToolError(code: string, message: string)

  /** One answer of a tool; count and filteredOutByTime are read from its payload, 0 if absent. */
  datatype Envelope = Envelope(toolName: string, ok: bool, count: int, filteredOutByTime: int,
                               error: Option<ToolError>)

  datatype Env = Env(cfg: Settings, allowTools: bool, required: string,
                     model: nat -> Reply, tools: nat -> Envelope, elapsed: nat -> real)

  const READ_EMAIL := "read_email"
  const DIGEST_NEWS := "digest_telegram_news"
  const TOPIC_DIGEST := "user_topic_telegram_digest"
  const UNKNOWN_TOOL := "unknown_tool"
  const MAX_TIMEOUTS_PER_TOOL := 2

  // ---------- History ----------

  /** A call the model asked for and the loop executed; a digest may have been retried once. */
  datatype Call = Call(name: string, args: Args, first: Envelope, retry: Option<Retry>)
  datatype Retry = Retry(args: Args, envelope: Envelope)

  datatype Status =
    | ParseError | FinalBlockedValidationRetry | FinalBlockedMissingRequiredTool | Final | Stop
    | ToolCallBlocked | RepeatedToolCallLoop | ToolCall | ToolConfigurationError | ToolTimeoutLimit

  datatype Trace = Trace(stepIndex: nat, parsed: Parse, status: Status, toolCall: Option<Request>)

  datatype Hist = Hist(traces: seq<Trace>, log: seq<Call>)

  datatype Reason =
    | MaxStepsExceeded | MaxToolCallsExceeded | MaxExecutionTimeExceeded
    | FinalAnswer | StopResponse | ValidationRetryMissing | RequiredToolMissing
    | ToolCallBlockedLimit | ToolCallLoop | ConfigurationError | TimeoutLimit
    | Running | FatalRuntimeError

  function Asked(c: Call): Request { Request(c.name, c.args) }

  /** The envelope that counts: a digest retry replaces the first result. */
  function Outcome(c: Call): Envelope {
    if c.retry.Some? then c.retry.value.envelope else c.first
  }

  function EffectiveArgs(c: Call): Args {
    if c.retry.Some? then c.retry.value.args else c.args
  }

  function Signatures(log: seq<Call>): (r: seq<Request>)
    ensures |r| == |log| && forall k :: 0 <= k < |log| ==> r[k] == Asked(log[k])
  {
    seq(|log|, k requires 0 <= k < |log| => Asked(log[k]))
  }

  /** Tool executions behind a log: one per call and one more per digest retry. */
  function Executions(log: seq<Call>): nat {
    if log == [] then 0
    else Executions(log[..|log| - 1]) + if log[|log| - 1].retry.Some? then 2 else 1
  }

  function OkNames(log: seq<Call>): set<string> {
    if log == [] then {}
    else OkNames(log[..|log| - 1]) + if Outcome(log[|log| - 1]).ok then {log[|log| - 1].name} else {}
  }

  function LastOk(log: seq<Call>, name: string): (c: Call)
    requires name in OkNames(log)
  {
    var last := log[|log| - 1];
    if Outcome(last).ok && last.name == name then last else LastOk(log[..|log| - 1], name)
  }

  predicate HasErrorCode(v: Envelope, code: string) {
    v.error.Some? && v.error.value.code == code
  }

  datatype Debt = Debt(name: string, count: nat)

  /** The tool whose invalid arguments the model still owes a corrected call for. */
  function Pending(log: seq<Call>): Debt {
    if log == [] then Debt("", 0)
    else
      var before := Pending(log[..|log| - 1]);
      var last := log[|log| - 1];
      if Outcome(last).ok then (if last.name == before.name then Debt("", 0) else before)
      else if HasErrorCode(Outcome(last), "VALIDATION_ERROR") then Debt(last.name, before.count + 1)
      else before
  }

  predicate TimedOut(v: Envelope) { !v.ok && HasErrorCode(v, "TIMEOUT") }

  /** Timeouts of a tool since its last call that did not time out. */
  function TimeoutStreak(log: seq<Call>, name: string): nat {
    if log == [] then 0
    else
      var last := log[|log| - 1];
      if last.name != name then TimeoutStreak(log[..|log| - 1], name)
      else if TimedOut(Outcome(last)) then TimeoutStreak(log[..|log| - 1], name) + 1
      else 0
  }

  /** How many calls at the end of the log name this tool. */
  function NameStreak(log: seq<Call>, name: string): nat {
    if log == [] || log[|log| - 1].name != name then 0 else NameStreak(log[..|log| - 1], name) + 1
  }

  function RequestStreak(log: seq<Call>, r: Request): nat {
    if log == [] || Asked(log[|log| - 1]) != r then 0 else RequestStreak(log[..|log| - 1], r) + 1
  }

  function Count<T(==)>(s: seq<T>, x: T): nat {
    if s == [] then 0 else Count(s[..|s| - 1], x) + if s[|s| - 1] == x then 1 else 0
  }

  function TakeLast<T>(s: seq<T>, n: nat): seq<T> {
    if |s| <= n then s else s[|s| - n..]
  }

  function CountStatus(traces: seq<Trace>, status: Status): nat {
    if traces == [] then 0
    else CountStatus(traces[..|traces| - 1], status) + if traces[|traces| - 1].status == status then 1 else 0
  }

  function TrailingParseErrors(traces: seq<Trace>): nat {
    if traces == [] || traces[|traces| - 1].status != ParseError then 0
    else TrailingParseErrors(traces[..|traces| - 1]) + 1
  }

  /** Blocked calls that still count: with tools enabled every tool call starts the count afresh. */
  function BlockedRun(allowTools: bool, traces: seq<Trace>): nat {
    if traces == [] then 0
    else BlockedNext(allowTools, BlockedRun(allowTools, traces[..|traces| - 1]), traces[|traces| - 1].status)
  }

  function BlockedNext(allowTools: bool, before: nat, status: Status): nat {
    match status
    case ToolCallBlocked => if allowTools then 1 else before + 1
    case ParseError => before
    case FinalBlockedValidationRetry => before
    case FinalBlockedMissingRequiredTool => before
    case _ => 0
  }

  // ---------- Decisions ----------

  function ToolName(action: string): (name: string)
    ensures name != ""
  {
    if action == "" then UNKNOWN_TOOL else action
  }

  /** An integer argument where absent and zero both mean the default. */
  function NumberOr(v: Option<int>, default: int): (n: int)
    ensures (n != 0 && v == Some(n)) || n == default
    ensures v.Some? && v.value != 0 ==> n == v.value
  {
    if v.Some? && v.value != 0 then v.value else default
  }

  /** The normalised non-blank entries; two lists agree when these do, in any order. */
  function Entries(items: seq<string>): multiset<string> {
    if items == [] then multiset{}
    else Entries(items[..|items| - 1]) +
         if Strip(items[|items| - 1]) == "" then multiset{} else multiset{Key(items[|items| - 1])}
  }

  /** When may a tool that already succeeded be called again? */
  predicate MayRepeat(prev: Call, next: Request) {
    var was := EffectiveArgs(prev);
    var args := next.args;
    if next.name == READ_EMAIL then
      var oldUnread := was.unreadOnly.GetOr(true);
      var oldHours := NumberOr(was.sinceHours, 24);
      Outcome(prev).count < args.maxItems.GetOr(NumberOr(was.maxItems, 10)) &&
      ((oldUnread && !args.unreadOnly.GetOr(oldUnread)) || NumberOr(args.sinceHours, oldHours) > oldHours)
    else if next.name == DIGEST_NEWS then
      var oldHours := NumberOr(was.sinceHours, 24);
      var oldTs := NumberOr(was.sinceUnixTs, 0);
      var newTs := NumberOr(args.sinceUnixTs, oldTs);
      Outcome(prev).count == 0 && Outcome(prev).filteredOutByTime > 0 &&
      (NumberOr(args.sinceHours, oldHours) > oldHours || (oldTs > 0 && (newTs == 0 || newTs < oldTs)))
    else
      next.name == TOPIC_DIGEST && !was.fetchUnread &&
      (args.fetchUnread || Key(was.topic) != Key(args.topic) ||
       Entries(was.channels) != Entries(args.channels) || Entries(was.keywords) != Entries(args.keywords))
  }

  predicate Redundant(log: seq<Call>, r: Request) {
    r.name in OkNames(log) && !MayRepeat(LastOk(log, r.name), r)
  }

  predicate TooFrequent(cfg: Settings, log: seq<Call>, r: Request) {
    Count(TakeLast(Signatures(log), cfg.windowSize), r) >= cfg.maxSameInWindow - 1
  }

  predicate LoopDetected(cfg: Settings, log: seq<Call>, r: Request) {
    TooFrequent(cfg, log, r) || RequestStreak(log, r) + 1 >= 3 || NameStreak(log, r.name) + 1 >= 3
  }

  /** The widened arguments for an empty digest whose posts were all too old, if any. */
  function DigestRetryArgs(args: Args, v: Envelope): Option<Args> {
    var hours := NumberOr(args.sinceHours, 24);
    if !v.ok || v.count != 0 || v.filteredOutByTime <= 0 || hours >= 168 then None
    else
      var wider := args.(sinceHours := Some(if hours < 72 then 72 else 168));
      Some(if NumberOr(args.sinceUnixTs, 0) > 0 then wider.(sinceUnixTs := Some(0)) else wider)
  }

  /** Executing a request after this log: the next tool answer, and the retry where it is due. */
  function Execute(e: Env, log: seq<Call>, r: Request): Call {
    var done := Executions(log);
    var first := e.tools(done);
    var wider := DigestRetryArgs(r.args, first);
    if r.name == DIGEST_NEWS && first.ok && done + 1 < e.cfg.maxToolCalls && wider.Some?
    then Call(r.name, r.args, first, Some(Retry(wider.value, e.tools(done + 1))))
    else Call(r.name, r.args, first, None)
  }

  predicate IsEmailConfigError(v: Envelope) {
    !v.ok && v.error.Some? && v.toolName == READ_EMAIL && Strip(v.error.value.code) == "EXECUTION_ERROR" &&
    Contains(Lower(Strip(v.error.value.message)), "emailreader settings") &&
    Contains(Lower(Strip(v.error.value.message)), "email is empty")
  }

  function ExecutedStatus(log: seq<Call>): Status
    requires log != []
  {
    var last := log[|log| - 1];
    if IsEmailConfigError(Outcome(last)) then ToolConfigurationError
    else if TimeoutStreak(log, last.name) >= MAX_TIMEOUTS_PER_TOOL then ToolTimeoutLimit
    else ToolCall
  }

  function FinalVerdict(e: Env, log: seq<Call>): Status {
    if Pending(log).name != "" then FinalBlockedValidationRetry
    else if e.required != "" && e.required !in OkNames(log) then FinalBlockedMissingRequiredTool
    else Final
  }

  function Record(h: Hist, parse: Parse, status: Status, toolCall: Option<Request>): Hist {
    h.(traces := h.traces + [Trace(|h.traces| + 1, parse, status, toolCall)])
  }

  /** One step of the run: the model said parse after history h. */
  function Advance(e: Env, h: Hist, parse: Parse): Hist {
    match parse
    case Invalid => Record(h, parse, ParseError, None)
    case Valid(FinalOut(_)) => Record(h, parse, FinalVerdict(e, h.log), None)
    case Valid(StopOut(_)) => Record(h, parse, Stop, None)
    case Valid(ToolOut(action, args)) =>
      var r := Request(ToolName(action), args);
      if !e.allowTools || Redundant(h.log, r) then Record(h, parse, ToolCallBlocked, Some(r))
      else if LoopDetected(e.cfg, h.log, r) then Record(h, parse, RepeatedToolCallLoop, Some(r))
      else
        var c := Execute(e, h.log, r);
        Record(h.(log := h.log + [c]), parse, ExecutedStatus(h.log + [c]), Some(Request(c.name, EffectiveArgs(c))))
  }

  /** How many model answers a step consumes: up to one more than the allowed repairs. */
  function Attempts(model: nat -> Reply, start: nat, repairs: nat): (n: nat)
    ensures 1 <= n <= 1 + repairs
    decreases repairs
  {
    if repairs == 0 || model(start).parse.Valid? then 1 else 1 + Attempts(model, start + 1, repairs - 1)
  }

  /** Model answers consumed by the first n steps. */
  function AskedBefore(e: Env, n: nat): nat {
    if n == 0 then 0
    else AskedBefore(e, n - 1) + Attempts(e.model, AskedBefore(e, n - 1), e.cfg.maxRepairs)
  }

  /** What the model finally said in step n (counting from 0). */
  function Said(e: Env, n: nat): Parse {
    e.model(AskedBefore(e, n + 1) - 1).parse
  }

  function ErrorsBefore(model: nat -> Reply, k: nat): nat {
    if k == 0 then 0 else ErrorsBefore(model, k - 1) + model(k - 1).errorEvents
  }

  /** The history after n steps. */
  function History(e: Env, n: nat): Hist {
    if n == 0 then Hist([], []) else Advance(e, History(e, n - 1), Said(e, n - 1))
  }

  // ---------- Ending ----------

  /** The limits checked before every step. */
  function Evaluate(cfg: Settings, steps: nat, calls: nat, elapsed: real, llmErrors: nat, formatFailures: nat):
    Option<Reason>
  {
    var extra := llmErrors * cfg.extraPerLlmError + formatFailures * cfg.extraPerFormatFailure;
    var allowed := cfg.maxExecutionSeconds + if extra < cfg.maxExtra then extra else cfg.maxExtra;
    if steps >= cfg.maxSteps then Some(MaxStepsExceeded)
    else if calls >= cfg.maxToolCalls then Some(MaxToolCallsExceeded)
    else if elapsed >= allowed as real then Some(MaxExecutionTimeExceeded)
    else None
  }

  function PolicyStop(e: Env, n: nat): Option<Reason> {
    var h := History(e, n);
    Evaluate(e.cfg, n, Executions(h.log), e.elapsed(n), ErrorsBefore(e.model, AskedBefore(e, n)),
             CountStatus(h.traces, ParseError))
  }

  function OnlyIf(condition: bool, reason: Reason): Option<Reason> {
    if condition then Some(reason) else None
  }

  /** Does the step just recorded end the run, and why? */
  function ExitAfter(e: Env, h: Hist): Option<Reason> {
    if h.traces == [] then None
    else match h.traces[|h.traces| - 1].status
    case ParseError => OnlyIf(TrailingParseErrors(h.traces) >= e.cfg.maxFormatFailures, FinalAnswer)
    case FinalBlockedValidationRetry => OnlyIf(Pending(h.log).count >= 2, ValidationRetryMissing)
    case FinalBlockedMissingRequiredTool =>
      OnlyIf(CountStatus(h.traces, FinalBlockedMissingRequiredTool) >= 2, RequiredToolMissing)
    case Final => Some(FinalAnswer)
    case Stop => Some(StopResponse)
    case ToolCallBlocked => OnlyIf(BlockedRun(e.allowTools, h.traces) >= e.cfg.maxBlocked, ToolCallBlockedLimit)
    case RepeatedToolCallLoop => Some(ToolCallLoop)
    case ToolConfigurationError => Some(ConfigurationError)
    case ToolTimeoutLimit => Some(TimeoutLimit)
    case ToolCall => None
  }

  /** Nothing ended the run before step n. */
  ghost predicate Reached(e: Env, n: nat) {
    && (forall i :: 0 <= i < n ==> PolicyStop(e, i).None?)
    && (forall i :: 0 <= i < n ==> ExitAfter(e, History(e, i)).None?)
  }

  /** The run ends after exactly n steps, for this reason. */
  ghost predicate EndsAt(e: Env, n: nat, reason: Reason) {
    Reached(e, n) &&
    match ExitAfter(e, History(e, n))
    case Some(r) => reason == r
    case None => PolicyStop(e, n) == Some(reason)
  }
}
