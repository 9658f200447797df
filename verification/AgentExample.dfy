/** Two runs of the agent loop: one accepts a final answer although a rejected call was never corrected, one
    ends as a final answer without the required tool. */
module AgentExample {
  import opened Text
  import opened AgentHistory
  import opened AgentSafety

  const CONFIG: Settings := RawSettings(10, 10, 100, 8, 3, 3, 0, 0, 0, 1, 3)

  const PLAIN := Args(None, None, None, None, false, "", [], [], "")

  function Rejection(name: string): Envelope {
    Envelope(name, false, 0, 0, Some(ToolError("VALIDATION_ERROR", "")))
  }

  function Success(name: string): Envelope {
    Envelope(name, true, 0, 0, None)
  }

  /** Tool a is rejected, tool b is rejected, tool b succeeds with other arguments, final answer. */
  const CALLS := [Call("a", PLAIN, Rejection("a"), None),
                  Call("b", PLAIN, Rejection("b"), None),
                  Call("b", PLAIN.(rest := "corrected"), Success("b"), None)]

  function Spoken(n: nat): Parse {
    if n < 3 then Valid(ToolOut(CALLS[n].name, CALLS[n].args)) else Valid(FinalOut([]))
  }

  const RUN := Env(CONFIG, true, "", (n: nat) => Reply(Spoken(n), 0),
                   (n: nat) => if n < 3 then CALLS[n].first else Success("b"), (n: nat) => 0.0)

  /** The history after n of the three calls. */
  function CallsMade(n: nat): Hist
    requires n <= 3
  {
    Hist(seq(n, i requires 0 <= i < n => Trace(i + 1, Spoken(i), ToolCall, Some(Asked(CALLS[i])))), CALLS[..n])
  }

  lemma {:induction false} CountNone<T>(s: seq<T>, x: T)
    requires x !in s
    ensures Count(s, x) == 0
  {
    if s != [] {
      CountNone(s[..|s| - 1], x);
    }
  }

  /** A new request to a tool that was not the last one twice is no loop. */
  lemma NoLoopYet(cfg: Settings, log: seq<Call>, r: Request)
    requires forall i :: 0 <= i < |log| ==> Asked(log[i]) != r
    requires |log| < 2 || log[|log| - 2].name != r.name
    ensures !LoopDetected(cfg, log, r)
  {
    assert r !in Signatures(log);
    CountNone(TakeLast(Signatures(log), cfg.windowSize), r);
    ShortNameStreak(log, r.name);
  }

  lemma ShortNameStreak(log: seq<Call>, name: string)
    requires |log| < 2 || log[|log| - 2].name != name
    ensures NameStreak(log, name) <= 1
  {
    if |log| >= 2 {
      assert log[..|log| - 1][|log| - 2] == log[|log| - 2];
    } else if |log| == 1 {
      assert log[..|log| - 1] == [];
    }
  }

  lemma {:induction false} NothingSucceeded(log: seq<Call>)
    requires forall i :: 0 <= i < |log| ==> !Outcome(log[i]).ok
    ensures OkNames(log) == {}
  {
    if log != [] {
      NothingSucceeded(log[..|log| - 1]);
    }
  }

  lemma {:induction false} OneExecutionEach(log: seq<Call>)
    requires forall i :: 0 <= i < |log| ==> log[i].retry == None
    ensures Executions(log) == |log|
  {
    if log != [] {
      OneExecutionEach(log[..|log| - 1]);
    }
  }

  lemma ExecutedStep(e: Env, h: Hist, c: Call, parse: Parse)
    requires e.allowTools && parse == Valid(ToolOut(c.name, c.args)) && c.retry == None
    requires c.name != "" && c.name != DIGEST_NEWS && c.name !in OkNames(h.log) && !LoopDetected(e.cfg, h.log, Asked(c))
    requires e.tools(Executions(h.log)) == c.first && c.first.toolName != READ_EMAIL && !TimedOut(c.first)
    ensures Advance(e, h, parse) == Record(h.(log := h.log + [c]), parse, ToolCall, Some(Asked(c)))
  {
    assert (h.log + [c])[..|h.log|] == h.log;
  }

  lemma CallStep(n: nat)
    requires n < 3
    ensures Advance(RUN, CallsMade(n), Spoken(n)) == CallsMade(n + 1)
  {
    var log := CALLS[..n];
    NoLoopYet(CONFIG, log, Asked(CALLS[n]));
    NothingSucceeded(log);
    OneExecutionEach(log);
    ExecutedStep(RUN, CallsMade(n), CALLS[n], Spoken(n));
    TakeOneMore(CALLS, n);
  }

  lemma {:induction false} AskedOnceEach(n: nat)
    ensures AskedBefore(RUN, n) == n
  {
    if n > 0 {
      AskedOnceEach(n - 1);
    }
  }

  lemma {:induction false} NoErrors(k: nat)
    ensures ErrorsBefore(RUN.model, k) == 0
  {
    if k > 0 {
      NoErrors(k - 1);
    }
  }

  lemma {:induction false} HistoryOfRun(n: nat)
    requires n <= 3
    ensures History(RUN, n) == CallsMade(n)
  {
    if n > 0 {
      HistoryOfRun(n - 1);
      AskedOnceEach(n);
      CallStep(n - 1);
    }
  }

  lemma {:induction false} NoParseErrors(traces: seq<Trace>)
    requires forall i :: 0 <= i < |traces| ==> traces[i].status != ParseError
    ensures CountStatus(traces, ParseError) == 0
  {
    if traces != [] {
      NoParseErrors(traces[..|traces| - 1]);
    }
  }

  lemma NoLimitYet(n: nat)
    requires n <= 3
    ensures Evaluate(CONFIG, n, n, 0.0, 0, 0) == None
  {
  }

  lemma NoVerdictYet(n: nat)
    requires n <= 3
    ensures ExitAfter(RUN, CallsMade(n)).None?
  {
    if n > 0 {
      assert CallsMade(n).traces[n - 1].status == ToolCall;
    }
  }

  lemma NoPolicyStopYet(n: nat)
    requires n <= 3
    ensures PolicyStop(RUN, n).None?
  {
    HistoryOfRun(n);
    AskedOnceEach(n);
    NoErrors(n);
    OneExecutionEach(CALLS[..n]);
    NoParseErrors(CallsMade(n).traces);
    NoLimitYet(n);
    assert CallsMade(n).log == CALLS[..n] && RUN.elapsed(n) == 0.0 && RUN.cfg == CONFIG;
  }

  lemma {:induction false} DebtOfRun()
    ensures Pending(CALLS[..1]) == Debt("a", 1) && Pending(CALLS[..2]) == Debt("b", 2) && Pending(CALLS[..3]) == Debt("", 0)
  {
    assert CALLS[..1][..0] == [] && CALLS[..2][..1] == CALLS[..1] && CALLS[..3][..2] == CALLS[..2];
  }

  lemma FinalStep()
    ensures History(RUN, 4) == Record(CallsMade(3), Spoken(3), Final, None)
  {
    HistoryOfRun(3);
    AskedOnceEach(4);
    DebtOfRun();
    assert CALLS[..3] == CALLS;
  }

  lemma RunEnds()
    ensures EndsAt(RUN, 4, FinalAnswer)
  {
    forall n | 0 <= n < 4 ensures PolicyStop(RUN, n).None? {
      NoPolicyStopYet(n);
    }
    forall n | 0 <= n < 4 ensures ExitAfter(RUN, History(RUN, n)).None? {
      HistoryOfRun(n);
      NoVerdictYet(n);
    }
    assert Reached(RUN, 4);
    LastVerdict();
    EndsWith(RUN, 4, FinalAnswer);
  }

  lemma LastVerdict()
    ensures ExitAfter(RUN, History(RUN, 4)) == Some(FinalAnswer)
  {
    FinalStep();
  }

  lemma EndsWith(e: Env, n: nat, reason: Reason)
    ensures Reached(e, n) && ExitAfter(e, History(e, n)) == Some(reason) ==> EndsAt(e, n, reason)
  {
  }

  lemma FirstIsUncorrected()
    ensures !AllCorrected(CALLS)
  {
    assert RejectedArgs(CALLS[0]);
    assert !SucceedsAfter(CALLS, 0);
  }

  lemma FinalIsAccepted()
    ensures AcceptedFinal(RUN, History(RUN, 4)) && History(RUN, 4).log == CALLS
  {
    FinalStep();
    FinalTraceMeaning(RUN, 4);
  }

  /** The rejection of b displaces that of a; the success of b clears the debt, and the final answer is
      accepted with a never corrected. */
  lemma RejectionForgotten() returns (e: Env, h: Hist)
    ensures h == History(e, 4) && EndsAt(e, 4, FinalAnswer) && AcceptedFinal(e, h) && !AllCorrected(h.log)
  {
    e, h := RUN, History(RUN, 4);
    RunEnds();
    FinalIsAccepted();
    FirstIsUncorrected();
  }

  // ---------- Nothing readable ----------

  const SILENT_RUN := Env(CONFIG, true, "a", (n: nat) => Reply(Invalid, 0), (n: nat) => Success("a"), (n: nat) => 0.0)

  lemma SilentGoesOn(n: nat)
    requires n < 3
    ensures PolicyStop(SILENT_RUN, n).None?
  {
    var h, asked := History(SILENT_RUN, n), AskedBefore(SILENT_RUN, n);
    UnreadableHistory(SILENT_RUN, n);
    SilentErrors(asked);
    NoExtraTime(n, CountStatus(h.traces, ParseError));
    assert SILENT_RUN.cfg == CONFIG && SILENT_RUN.elapsed(n) == 0.0;
  }

  lemma {:induction false} SilentErrors(k: nat)
    ensures ErrorsBefore(SILENT_RUN.model, k) == 0
  {
    if k > 0 {
      SilentErrors(k - 1);
    }
  }

  lemma NoExtraTime(n: nat, failures: nat)
    requires n < 3
    ensures Evaluate(CONFIG, n, 0, 0.0, 0, failures) == None
  {
  }

  /** A run that ends as a final answer although a tool is required and none was ever executed. */
  lemma EndsWithoutRequiredTool() returns (e: Env, n: nat)
    ensures EndsAt(e, n, FinalAnswer) && e.required != "" && e.required !in OkNames(History(e, n).log)
  {
    e, n := SILENT_RUN, 3;
    forall i | 0 <= i < 3 ensures PolicyStop(SILENT_RUN, i).None? {
      SilentGoesOn(i);
    }
    UnreadableEndsFinal(SILENT_RUN);
  }
}
