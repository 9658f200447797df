/** What holds of every run of the agent loop, whatever the model and the tools answer. */
module AgentSafety {
  import opened Text
  import opened AgentHistory

  // ---------- Every executed call was permitted ----------

  ghost predicate Permitted(e: Env, log: seq<Call>, k: nat)
    requires k < |log|
  {
    var r := Asked(log[k]);
    && e.allowTools && r.name != ""
    && !Redundant(log[..k], r) && !LoopDetected(e.cfg, log[..k], r)
    && log[k] == Execute(e, log[..k], r)
  }

  ghost predicate AllPermitted(e: Env, log: seq<Call>) {
    forall k :: 0 <= k < |log| ==> Permitted(e, log, k)
  }

  lemma AdvanceKeepsPermitted(e: Env, h: Hist, parse: Parse)
    requires AllPermitted(e, h.log)
    ensures AllPermitted(e, Advance(e, h, parse).log)
  {
    var log := Advance(e, h, parse).log;
    forall k | 0 <= k < |log| ensures Permitted(e, log, k) {
      if k < |h.log| {
        assert Permitted(e, h.log, k);
        assert log[..k] == h.log[..k];
      } else {
        assert log[..k] == h.log;
      }
    }
  }

  lemma {:induction false} HistoryPermitted(e: Env, n: nat)
    ensures AllPermitted(e, History(e, n).log)
  {
    if n > 0 {
      HistoryPermitted(e, n - 1);
      AdvanceKeepsPermitted(e, History(e, n - 1), Said(e, n - 1));
    }
  }

  // ---------- The sliding window ----------

  lemma {:induction false} CountConcat<T>(a: seq<T>, b: seq<T>, x: T)
    ensures Count(a + b, x) == Count(a, x) + Count(b, x)
  {
    if b == [] {
      assert a + b == a;
    } else {
      var n := |b| - 1;
      InitOfConcat(a, b);
      CountConcat(a, b[..n], x);
    }
  }

  /** No block of windowSize+1 consecutive executed calls repeats a signature as often as the limit. */
  lemma {:induction false} SignatureBound(e: Env, n: nat, lo: nat, hi: nat, r: Request)
    requires lo <= hi <= |History(e, n).log| && hi - lo <= e.cfg.windowSize + 1
    ensures Count(Signatures(History(e, n).log)[lo..hi], r) <= e.cfg.maxSameInWindow - 1
  {
    HistoryPermitted(e, n);
    SignatureBoundIn(e, History(e, n).log, lo, hi, r);
  }

  lemma {:induction false} SignatureBoundIn(e: Env, log: seq<Call>, lo: nat, hi: nat, r: Request)
    requires AllPermitted(e, log) && lo <= hi <= |log| && hi - lo <= e.cfg.windowSize + 1
    ensures Count(Signatures(log)[lo..hi], r) <= e.cfg.maxSameInWindow - 1
    decreases hi
  {
    if lo < hi {
      var k := hi - 1;
      SignaturesBefore(log, lo, k);
      if Asked(log[k]) != r {
        SignatureBoundIn(e, log, lo, k, r);
      } else {
        NotTooFrequent(e, log, k);
        CountInTail(Signatures(log[..k]), lo, e.cfg.windowSize, r);
      }
    }
  }

  lemma SignaturesBefore(log: seq<Call>, lo: nat, k: nat)
    requires lo <= k < |log|
    ensures Signatures(log)[lo..k + 1][..k - lo] == Signatures(log)[lo..k]
    ensures Signatures(log)[lo..k] == Signatures(log[..k])[lo..]
  {
  }

  lemma NotTooFrequent(e: Env, log: seq<Call>, k: nat)
    requires k < |log| && AllPermitted(e, log)
    ensures Count(TakeLast(Signatures(log[..k]), e.cfg.windowSize), Asked(log[k])) <= e.cfg.maxSameInWindow - 2
  {
    assert Permitted(e, log, k);
  }

  lemma CountInTail<T>(s: seq<T>, lo: nat, n: nat, x: T)
    requires lo <= |s| && |s| - lo <= n
    ensures Count(s[lo..], x) <= Count(TakeLast(s, n), x)
  {
    var window, tail := TakeLast(s, n), s[lo..];
    assert window == window[..|window| - |tail|] + tail;
    CountConcat(window[..|window| - |tail|], tail, x);
  }

  /** No three consecutive executed calls name the same tool. */
  lemma NoThreeInARow(e: Env, n: nat, k: nat)
    requires k + 2 < |History(e, n).log|
    ensures var log := History(e, n).log; !(log[k].name == log[k + 1].name == log[k + 2].name)
  {
    HistoryPermitted(e, n);
    var log := History(e, n).log;
    StreakOfTwo(log[..k + 2], log[k + 2].name);
    NoStreak(e, log, k + 2);
  }

  lemma StreakOfTwo(log: seq<Call>, name: string)
    requires |log| >= 2
    ensures log[|log| - 1].name == name && log[|log| - 2].name == name ==> NameStreak(log, name) >= 2
  {
    var before := log[..|log| - 1];
    assert before[|before| - 1] == log[|log| - 2];
  }

  lemma NoStreak(e: Env, log: seq<Call>, k: nat)
    requires k < |log| && AllPermitted(e, log)
    ensures NameStreak(log[..k], log[k].name) <= 1
  {
    assert Permitted(e, log, k);
  }

  // ---------- No pointless repeats ----------

  /** A tool counts as successful exactly when some executed call of it ended well. */
  lemma {:induction false} OkNamesMeaning(log: seq<Call>, name: string)
    ensures name in OkNames(log) <==> exists k :: 0 <= k < |log| && log[k].name == name && Outcome(log[k]).ok
  {
    if log != [] {
      var n := |log| - 1;
      OkNamesMeaning(log[..n], name);
      assert forall k :: 0 <= k < n ==> log[..n][k] == log[k];
      if name in OkNames(log) && name !in OkNames(log[..n]) {
        assert log[n].name == name && Outcome(log[n]).ok;
      }
    }
  }

  lemma {:induction false} LastOkIndex(log: seq<Call>, name: string, i: nat) returns (p: nat)
    requires i < |log| && log[i].name == name && Outcome(log[i]).ok
    ensures name in OkNames(log) && i <= p < |log|
    ensures log[p] == LastOk(log, name) && log[p].name == name && Outcome(log[p]).ok
  {
    OkNamesMeaning(log, name);
    var n := |log| - 1;
    if Outcome(log[n]).ok && log[n].name == name {
      p := n;
    } else {
      assert log[..n][i] == log[i];
      p := LastOkIndex(log[..n], name, i);
    }
  }

  /** After a success, only the three tools with a repeat rule ever run again. */
  lemma NoPointlessRepeat(e: Env, n: nat, i: nat, j: nat)
    requires i < j < |History(e, n).log|
    requires var log := History(e, n).log; Outcome(log[i]).ok && log[j].name == log[i].name
    ensures History(e, n).log[i].name in {READ_EMAIL, DIGEST_NEWS, TOPIC_DIGEST}
  {
    HistoryPermitted(e, n);
    var log := History(e, n).log;
    assert Permitted(e, log, j);
    assert log[..j][i] == log[i];
    var _ := LastOkIndex(log[..j], log[i].name, i);
  }

  /** What a mail request looks at: mails no older than its hours, and read ones only if told so. */
  predicate LooksAtMail(unreadOnly: bool, hours: int, isUnread: bool, age: int) {
    (unreadOnly ==> isUnread) && age <= hours
  }

  /** What a news request looks at: posts no older than its hours, nor than its starting time if it has one. */
  predicate LooksAtPost(hours: int, since: int, age: int, ts: int) {
    age <= hours && (since > 0 ==> ts >= since)
  }

  /** The request asks for more mails than came, and looks at some that the call before it did not. */
  ghost predicate LooksFurtherInMail(prev: Call, next: Request) {
    var was, args := EffectiveArgs(prev), next.args;
    var oldUnread, oldHours := was.unreadOnly.GetOr(true), NumberOr(was.sinceHours, 24);
    var newUnread, newHours := args.unreadOnly.GetOr(oldUnread), NumberOr(args.sinceHours, oldHours);
    && Outcome(prev).count < args.maxItems.GetOr(NumberOr(was.maxItems, 10))
    && exists isUnread, age :: LooksAtMail(newUnread, newHours, isUnread, age) && !LooksAtMail(oldUnread, oldHours, isUnread, age)
  }

  /** The call before found nothing because of its period, and the request looks at posts that it did not. */
  ghost predicate LooksFurtherInNews(prev: Call, next: Request) {
    var was, args := EffectiveArgs(prev), next.args;
    var oldHours, oldSince := NumberOr(was.sinceHours, 24), NumberOr(was.sinceUnixTs, 0);
    var newHours, newSince := NumberOr(args.sinceHours, oldHours), NumberOr(args.sinceUnixTs, oldSince);
    && Outcome(prev).count == 0 && Outcome(prev).filteredOutByTime > 0
    && exists age, ts :: LooksAtPost(newHours, newSince, age, ts) && !LooksAtPost(oldHours, oldSince, age, ts)
  }

  lemma FurtherMailIff(oldUnread: bool, oldHours: int, newUnread: bool, newHours: int)
    ensures (exists isUnread, age ::
        LooksAtMail(newUnread, newHours, isUnread, age) && !LooksAtMail(oldUnread, oldHours, isUnread, age)) <==>
      (oldUnread && !newUnread) || newHours > oldHours
  {
    if oldUnread && !newUnread {
      assert LooksAtMail(newUnread, newHours, false, newHours) && !LooksAtMail(oldUnread, oldHours, false, newHours);
    } else if newHours > oldHours {
      assert LooksAtMail(newUnread, newHours, true, newHours) && !LooksAtMail(oldUnread, oldHours, true, newHours);
    }
  }

  lemma FurtherNewsIff(oldHours: int, oldSince: int, newHours: int, newSince: int)
    ensures (exists age, ts ::
        LooksAtPost(newHours, newSince, age, ts) && !LooksAtPost(oldHours, oldSince, age, ts)) <==>
      newHours > oldHours || (oldSince > 0 && newSince < oldSince)
  {
    if newHours > oldHours {
      var ts := if newSince > 0 then newSince else 0;
      assert LooksAtPost(newHours, newSince, newHours, ts) && !LooksAtPost(oldHours, oldSince, newHours, ts);
    } else if oldSince > 0 && newSince < oldSince {
      assert LooksAtPost(newHours, newSince, newHours, oldSince - 1) && !LooksAtPost(oldHours, oldSince, newHours, oldSince - 1);
    }
  }

  /** A mail or news request may follow a success exactly if it looks further; a topic request exactly if that
      success fetched nothing, and this one does, or asks for another topic or for other channels or keywords. */
  lemma RepeatMeaning(prev: Call, next: Request)
    ensures next.name == READ_EMAIL ==> (MayRepeat(prev, next) <==> LooksFurtherInMail(prev, next))
    ensures next.name == DIGEST_NEWS ==> (MayRepeat(prev, next) <==> LooksFurtherInNews(prev, next))
    ensures next.name == TOPIC_DIGEST && MayRepeat(prev, next) ==> !EffectiveArgs(prev).fetchUnread
    ensures next.name !in {READ_EMAIL, DIGEST_NEWS, TOPIC_DIGEST} ==> !MayRepeat(prev, next)
  {
    var was, args := EffectiveArgs(prev), next.args;
    var oldUnread, oldHours := was.unreadOnly.GetOr(true), NumberOr(was.sinceHours, 24);
    var oldSince := NumberOr(was.sinceUnixTs, 0);
    FurtherMailIff(oldUnread, oldHours, args.unreadOnly.GetOr(oldUnread), NumberOr(args.sinceHours, oldHours));
    FurtherNewsIff(oldHours, oldSince, NumberOr(args.sinceHours, oldHours), NumberOr(args.sinceUnixTs, oldSince));
  }

  /** So in every run a mail or news call after a success of its tool looks further than the last success did. */
  lemma RepeatLooksFurther(e: Env, n: nat, i: nat, j: nat) returns (p: nat)
    requires i < j < |History(e, n).log|
    requires var log := History(e, n).log; Outcome(log[i]).ok && log[j].name == log[i].name
    ensures var log := History(e, n).log;
      && i <= p < j && log[p].name == log[j].name && Outcome(log[p]).ok
      && (log[j].name == READ_EMAIL ==> LooksFurtherInMail(log[p], Asked(log[j])))
      && (log[j].name == DIGEST_NEWS ==> LooksFurtherInNews(log[p], Asked(log[j])))
  {
    HistoryPermitted(e, n);
    var log := History(e, n).log;
    assert Permitted(e, log, j);
    assert log[..j][i] == log[i];
    p := LastOkIndex(log[..j], log[i].name, i);
    RepeatMeaning(log[p], Asked(log[j]));
  }

  /** After a successful unread fetch the topic digest never runs again. */
  lemma UnreadFetchIsLast(e: Env, n: nat, i: nat, j: nat)
    requires i < j < |History(e, n).log|
    requires var c := History(e, n).log[i]; c.name == TOPIC_DIGEST && Outcome(c).ok && c.args.fetchUnread
    ensures History(e, n).log[j].name != TOPIC_DIGEST
  {
    HistoryPermitted(e, n);
    UnreadFetchIsLastIn(e, History(e, n).log, i, j);
  }

  lemma {:induction false} UnreadFetchIsLastIn(e: Env, log: seq<Call>, i: nat, j: nat)
    requires AllPermitted(e, log) && i < j < |log|
    requires log[i].name == TOPIC_DIGEST && Outcome(log[i]).ok && log[i].args.fetchUnread
    ensures log[j].name != TOPIC_DIGEST
    decreases j
  {
    if log[j].name == TOPIC_DIGEST {
      assert Permitted(e, log, i) && Permitted(e, log, j);
      assert log[..j][i] == log[i];
      var p := LastOkIndex(log[..j], TOPIC_DIGEST, i);
      if i < p {
        UnreadFetchIsLastIn(e, log, i, p);
      }
      assert false;
    }
  }

  /** A digest is retried at most once per call, only after an empty result whose posts were all too
      old, and always over a strictly longer period with every other argument kept. */
  lemma RetryIsWider(e: Env, n: nat, k: nat)
    requires k < |History(e, n).log| && History(e, n).log[k].retry.Some?
    ensures var c := History(e, n).log[k]; var wider := c.retry.value.args;
      && c.name == DIGEST_NEWS && c.first.ok && c.first.count == 0 && c.first.filteredOutByTime > 0
      && NumberOr(wider.sinceHours, 24) > NumberOr(c.args.sinceHours, 24)
      && NumberOr(wider.sinceHours, 24) in {72, 168} && NumberOr(wider.sinceUnixTs, 0) <= 0
      && wider.(sinceHours := None, sinceUnixTs := None) == c.args.(sinceHours := None, sinceUnixTs := None)
  {
    HistoryPermitted(e, n);
    assert Permitted(e, History(e, n).log, k);
  }

  // ---------- The gate before a final answer ----------

  predicate RejectedArgs(c: Call) {
    !Outcome(c).ok && HasErrorCode(Outcome(c), "VALIDATION_ERROR")
  }

  /** The last call rejected for its arguments has not been followed by a success of its tool. */
  ghost predicate OwesCorrection(log: seq<Call>, k: int) {
    && 0 <= k < |log| && RejectedArgs(log[k])
    && forall j :: k < j < |log| ==> !RejectedArgs(log[j]) && !(Outcome(log[j]).ok && log[j].name == log[k].name)
  }

  ghost predicate Named(log: seq<Call>) {
    forall k :: 0 <= k < |log| ==> log[k].name != ""
  }

  /** The pending tool is that of the last rejected call, as long as it is uncorrected. */
  lemma {:induction false} PendingMeaning(log: seq<Call>)
    requires Named(log)
    ensures Pending(log).name != "" <==> Pending(log).count >= 1
    ensures Pending(log).name != "" <==> exists k :: OwesCorrection(log, k)
    ensures forall k :: OwesCorrection(log, k) ==> Pending(log).name == log[k].name
  {
    if log != [] {
      var n := |log| - 1;
      var before, last := log[..n], log[n];
      PendingMeaning(before);
      forall k: int {
        OwesAfter(log, k);
      }
      if RejectedArgs(last) {
        assert OwesCorrection(log, n);
      } else if Pending(log).name != "" {
        var k :| OwesCorrection(before, k);
        assert OwesCorrection(log, k);
      }
    }
  }

  /** What the last call leaves of the corrections owed. */
  lemma OwesAfter(log: seq<Call>, k: int)
    requires log != []
    ensures var n := |log| - 1; var last := log[n];
      OwesCorrection(log, k) <==>
        if RejectedArgs(last) then k == n
        else OwesCorrection(log[..n], k) && !(Outcome(last).ok && last.name == log[k].name)
  {
    var n := |log| - 1;
    assert forall j :: 0 <= j < n ==> log[..n][j] == log[j];
  }

  function Rejections(log: seq<Call>): nat {
    if log == [] then 0 else Rejections(log[..|log| - 1]) + if RejectedArgs(log[|log| - 1]) then 1 else 0
  }

  /** A success of the tool whose correction is owed at this moment. */
  ghost predicate Clears(before: seq<Call>, c: Call) {
    Outcome(c).ok && exists i :: OwesCorrection(before, i) && before[i].name == c.name
  }

  /** The log after m holds no clearing success, and m is its start or follows one. */
  ghost predicate SinceClearing(log: seq<Call>, m: nat) {
    && m <= |log| && (m > 0 ==> Clears(log[..m - 1], log[m - 1]))
    && forall k :: m <= k < |log| ==> !Clears(log[..k], log[k])
  }

  lemma ClearsMeansReset(before: seq<Call>, c: Call)
    requires Named(before) && c.name != ""
    ensures Clears(before, c) <==> Outcome(c).ok && c.name == Pending(before).name
  {
    PendingMeaning(before);
  }

  lemma {:induction false} CountSince(log: seq<Call>, m: nat)
    requires Named(log) && SinceClearing(log, m)
    ensures Pending(log).count == Rejections(log[m..])
  {
    if log != [] {
      var n := |log| - 1;
      ClearsMeansReset(log[..n], log[n]);
      if m <= n {
        ClearingInPrefix(log, n, m);
        CountSince(log[..n], m);
        RejectionsStep(log, n, m);
      }
    }
  }

  lemma RejectionsStep(log: seq<Call>, n: nat, m: nat)
    requires m <= n && |log| == n + 1
    ensures Rejections(log[m..]) == Rejections(log[..n][m..]) + if RejectedArgs(log[n]) then 1 else 0
  {
    assert log[m..][..n - m] == log[..n][m..];
  }

  lemma PrefixOfPrefix(log: seq<Call>, n: nat, k: nat)
    requires k < n <= |log|
    ensures log[..n][..k] == log[..k] && log[..n][k] == log[k]
  {
  }

  lemma ClearingInPrefix(log: seq<Call>, n: nat, m: nat)
    requires m <= n <= |log|
    requires (m > 0 ==> Clears(log[..m - 1], log[m - 1])) && forall k :: m <= k < n ==> !Clears(log[..k], log[k])
    ensures SinceClearing(log[..n], m)
  {
    if m > 0 {
      PrefixOfPrefix(log, n, m - 1);
    }
    forall k | m <= k < n ensures !Clears(log[..n][..k], log[..n][k]) {
      PrefixOfPrefix(log, n, k);
    }
  }

  /** The pending count is the number of calls rejected for their arguments since the last success that
      cleared the debt, of whatever tools; every log has such a place. */
  lemma PendingCount(log: seq<Call>) returns (m: nat)
    requires Named(log)
    ensures SinceClearing(log, m) && Pending(log).count == Rejections(log[m..])
  {
    m := |log|;
    while m > 0 && !Clears(log[..m - 1], log[m - 1])
      invariant m <= |log| && forall k :: m <= k < |log| ==> !Clears(log[..k], log[k])
    {
      m := m - 1;
    }
    CountSince(log, m);
  }

  // ---------- Rejected calls that are never corrected ----------

  ghost predicate SucceedsAfter(log: seq<Call>, k: int)
    requires 0 <= k < |log|
  {
    exists j :: k < j < |log| && Outcome(log[j]).ok && log[j].name == log[k].name
  }

  ghost predicate AllCorrected(log: seq<Call>) {
    forall k :: 0 <= k < |log| && RejectedArgs(log[k]) ==> SucceedsAfter(log, k)
  }

  /** Another tool was rejected while this call was uncorrected: only the other tool stays pending. */
  ghost predicate Displaced(log: seq<Call>, k: int, j: int) {
    && 0 <= k < j < |log| && RejectedArgs(log[k]) && RejectedArgs(log[j]) && log[j].name != log[k].name
    && forall i :: k < i < j ==> !(Outcome(log[i]).ok && log[i].name == log[k].name)
  }

  /** Once nothing is pending, a rejected call is uncorrected exactly if it was displaced and its tool has
      not succeeded since. */
  lemma UncorrectedIff(log: seq<Call>, k: nat)
    requires k < |log| && RejectedArgs(log[k]) && forall i :: !OwesCorrection(log, i)
    ensures !SucceedsAfter(log, k) <==>
      exists j :: Displaced(log, k, j) && forall i :: j < i < |log| ==> !(Outcome(log[i]).ok && log[i].name == log[k].name)
  {
    if !SucceedsAfter(log, k) {
      var j := LastRejection(log, k);
      assert log[j].name != log[k].name by {
        assert !OwesCorrection(log, j);
      }
      assert Displaced(log, k, j);
    }
  }

  lemma LastRejection(log: seq<Call>, k: nat) returns (j: nat)
    requires k < |log| && RejectedArgs(log[k])
    ensures k <= j < |log| && RejectedArgs(log[j]) && forall i :: j < i < |log| ==> !RejectedArgs(log[i])
  {
    j := |log| - 1;
    while !RejectedArgs(log[j])
      invariant k <= j < |log| && forall i :: j < i < |log| ==> !RejectedArgs(log[i])
      decreases j
    {
      j := j - 1;
    }
  }

  /** A final answer is accepted with every rejected call corrected if and only if no displaced one is
      still without a success of its tool. */
  lemma FinalCorrectsIff(e: Env, n: nat)
    requires AcceptedFinal(e, History(e, n))
    ensures var log := History(e, n).log;
      && (AllCorrected(log) <==> forall k, j :: Displaced(log, k, j) ==> SucceedsAfter(log, k))
      && (forall k :: 0 <= k < |log| && RejectedArgs(log[k]) && !SucceedsAfter(log, k) ==> exists j :: Displaced(log, k, j))
  {
    var log := History(e, n).log;
    forall k | 0 <= k < |log| && RejectedArgs(log[k]) && !SucceedsAfter(log, k)
      ensures exists j :: Displaced(log, k, j)
    {
      UncorrectedIff(log, k);
    }
  }

  /** Calls none of which is rejected for its arguments. */
  ghost predicate Quiet(more: seq<Call>) {
    Named(more) && forall i :: 0 <= i < |more| ==> !RejectedArgs(more[i])
  }

  /** Without any further rejection a final answer may come to be accepted with this call uncorrected. */
  ghost predicate CanBeForgotten(e: Env, log: seq<Call>, k: nat)
    requires k < |log|
  {
    exists more :: Quiet(more) && FinalVerdict(e, log + more) == Final && !SucceedsAfter(log + more, k)
  }

  function Succeeding(name: string): Call {
    Call(name, Args(None, None, None, None, false, "", [], [], ""), Envelope(name, true, 0, 0, None), None)
  }

  lemma SuccessSettles(log: seq<Call>, name: string)
    ensures OkNames(log + [Succeeding(name)]) == OkNames(log) + {name}
    ensures Pending(log + [Succeeding(name)]) == if name == Pending(log).name then Debt("", 0) else Pending(log)
  {
    assert (log + [Succeeding(name)])[..|log|] == log;
  }

  function ClearDebt(log: seq<Call>): seq<Call> {
    if Pending(log).name == "" then [] else [Succeeding(Pending(log).name)]
  }

  function MeetRequired(e: Env, log: seq<Call>): seq<Call> {
    if e.required == "" || e.required in OkNames(log) then [] else [Succeeding(e.required)]
  }

  lemma DebtIsCleared(log: seq<Call>)
    ensures Pending(log + ClearDebt(log)).name == "" && OkNames(log) <= OkNames(log + ClearDebt(log))
  {
    if Pending(log).name == "" {
      assert log + [] == log;
    } else {
      SuccessSettles(log, Pending(log).name);
    }
  }

  lemma RequiredIsMet(e: Env, log: seq<Call>)
    requires Pending(log).name == ""
    ensures FinalVerdict(e, log + MeetRequired(e, log)) == Final
  {
    if e.required == "" || e.required in OkNames(log) {
      assert log + [] == log;
    } else {
      SuccessSettles(log, e.required);
    }
  }

  /** The successes that open both gates: of the pending tool, then of the required one. */
  function Opening(e: Env, log: seq<Call>): seq<Call> {
    ClearDebt(log) + MeetRequired(e, log + ClearDebt(log))
  }

  lemma OpeningOpens(e: Env, log: seq<Call>)
    ensures FinalVerdict(e, log + Opening(e, log)) == Final
  {
    var cleared := log + ClearDebt(log);
    DebtIsCleared(log);
    RequiredIsMet(e, cleared);
    assert log + Opening(e, log) == cleared + MeetRequired(e, cleared);
  }

  lemma OpeningCalls(e: Env, log: seq<Call>, i: nat)
    requires i < |Opening(e, log)|
    ensures var c := Opening(e, log)[i];
      && c.name != "" && Outcome(c).ok
      && (c.name == Pending(log).name || (c.name == e.required && e.required !in OkNames(log)))
  {
    DebtIsCleared(log);
  }

  lemma {:induction false} PendingNeedsSuccess(log: seq<Call>, more: seq<Call>)
    requires Quiet(more) && Pending(log).name != ""
    ensures Pending(log + more).name == Pending(log).name ||
      exists i :: 0 <= i < |more| && Outcome(more[i]).ok && more[i].name == Pending(log).name
  {
    if more == [] {
      assert log + more == log;
    } else {
      var n := |more| - 1;
      InitOfConcat(log, more);
      PendingNeedsSuccess(log, more[..n]);
      if i :| 0 <= i < n && Outcome(more[..n][i]).ok && more[..n][i].name == Pending(log).name {
        assert more[i] == more[..n][i];
      }
    }
  }

  lemma LaterSuccess(log: seq<Call>, more: seq<Call>, k: nat, i: nat)
    requires k < |log| && i < |more| && Outcome(more[i]).ok && more[i].name == log[k].name
    ensures SucceedsAfter(log + more, k)
  {
    assert (log + more)[|log| + i] == more[i] && (log + more)[k] == log[k];
  }

  lemma NoLaterSuccess(log: seq<Call>, more: seq<Call>, k: nat)
    requires k < |log| && !SucceedsAfter(log, k) && forall i :: 0 <= i < |more| ==> more[i].name != log[k].name
    ensures !SucceedsAfter(log + more, k)
  {
    var all := log + more;
    forall j | k < j < |all| ensures !(Outcome(all[j]).ok && all[j].name == all[k].name) {
      assert all[j] == if j < |log| then log[j] else more[j - |log|];
    }
  }

  /** Its tool is not the pending one, and not a required one that has never succeeded. */
  predicate IsOverlooked(e: Env, log: seq<Call>, name: string) {
    Pending(log).name != name && (e.required == name ==> e.required in OkNames(log))
  }

  lemma OverlookedIsForgotten(e: Env, log: seq<Call>, k: nat)
    requires k < |log| && !SucceedsAfter(log, k) && IsOverlooked(e, log, log[k].name)
    ensures CanBeForgotten(e, log, k)
  {
    var more := Opening(e, log);
    OpeningOpens(e, log);
    forall i | 0 <= i < |more| ensures more[i].name != "" && !RejectedArgs(more[i]) && more[i].name != log[k].name {
      OpeningCalls(e, log, i);
    }
    NoLaterSuccess(log, more, k);
  }

  /** An uncorrected call can be forgotten exactly when its tool is overlooked: the pending name and the
      successes are all that the gates remember. */
  lemma ForgottenIff(e: Env, log: seq<Call>, k: nat)
    requires k < |log| && log[k].name != "" && !SucceedsAfter(log, k)
    ensures CanBeForgotten(e, log, k) <==> IsOverlooked(e, log, log[k].name)
  {
    if IsOverlooked(e, log, log[k].name) {
      OverlookedIsForgotten(e, log, k);
    }
    if more :| Quiet(more) && FinalVerdict(e, log + more) == Final && !SucceedsAfter(log + more, k) {
      NotWhilePending(e, log, more, k);
      if e.required == log[k].name {
        NotWhileRequired(e, log, more, k);
      }
    }
  }

  lemma NotWhilePending(e: Env, log: seq<Call>, more: seq<Call>, k: nat)
    requires k < |log| && Quiet(more) && FinalVerdict(e, log + more) == Final && !SucceedsAfter(log + more, k)
    requires log[k].name != ""
    ensures Pending(log).name != log[k].name
  {
    if Pending(log).name == log[k].name {
      PendingNeedsSuccess(log, more);
      var i :| 0 <= i < |more| && Outcome(more[i]).ok && more[i].name == log[k].name;
      LaterSuccess(log, more, k, i);
    }
  }

  lemma NotWhileRequired(e: Env, log: seq<Call>, more: seq<Call>, k: nat)
    requires k < |log| && FinalVerdict(e, log + more) == Final && !SucceedsAfter(log + more, k)
    requires log[k].name != "" && e.required == log[k].name
    ensures e.required in OkNames(log)
  {
    var all := log + more;
    OkNamesMeaning(all, e.required);
    var j :| 0 <= j < |all| && all[j].name == e.required && Outcome(all[j]).ok;
    OkNamesMeaning(log, e.required);
    assert j <= k && all[j] == log[j] by {
      assert all[k] == log[k];
    }
  }

  lemma RejectionSnoc(log: seq<Call>, c: Call, k: nat)
    requires k < |log| && RejectedArgs(c) && !SucceedsAfter(log, k)
    ensures Pending(log + [c]).name == c.name && OkNames(log + [c]) == OkNames(log)
    ensures !SucceedsAfter(log + [c], k) && (log + [c])[k] == log[k]
  {
    assert (log + [c])[..|log|] == log;
    forall j | k < j < |log + [c]| ensures !(Outcome((log + [c])[j]).ok && (log + [c])[j].name == log[k].name) {
      assert (log + [c])[j] == if j < |log| then log[j] else c;
    }
  }

  /** The step that loses a call: while it is pending, the rejection of another tool, and of no other, lets it
      be forgotten. */
  lemma OverwritingForgets(e: Env, log: seq<Call>, k: nat, c: Call)
    requires k < |log| && log[k].name != "" && !SucceedsAfter(log, k) && RejectedArgs(c)
    requires Pending(log).name == log[k].name && (e.required == log[k].name ==> e.required in OkNames(log))
    ensures !CanBeForgotten(e, log, k)
    ensures CanBeForgotten(e, log + [c], k) <==> c.name != log[k].name
  {
    ForgottenIff(e, log, k);
    RejectionSnoc(log, c, k);
    ForgottenIff(e, log + [c], k);
  }

  lemma {:induction false} HistoryNamed(e: Env, n: nat)
    ensures Named(History(e, n).log)
  {
    HistoryPermitted(e, n);
    forall k | 0 <= k < |History(e, n).log| ensures History(e, n).log[k].name != "" {
      assert Permitted(e, History(e, n).log, k);
    }
  }

  lemma {:induction false} TraceCount(e: Env, n: nat)
    ensures |History(e, n).traces| == n
  {
    if n > 0 {
      TraceCount(e, n - 1);
    }
  }

  /** The model's final answer was accepted: nothing is owed and the required tool has succeeded. */
  ghost predicate AcceptedFinal(e: Env, h: Hist) {
    && h.traces != [] && h.traces[|h.traces| - 1].status == Final
    && h.traces[|h.traces| - 1].parsed.Valid? && h.traces[|h.traces| - 1].parsed.output.FinalOut?
    && (e.required != "" ==>
          exists k :: 0 <= k < |h.log| && h.log[k].name == e.required && Outcome(h.log[k]).ok)
    && forall k :: !OwesCorrection(h.log, k)
  }

  ghost predicate LastUnparsable(e: Env, h: Hist) {
    && |h.traces| >= e.cfg.maxFormatFailures
    && forall i :: |h.traces| - e.cfg.maxFormatFailures <= i < |h.traces| ==> h.traces[i].status == ParseError
  }

  lemma {:induction false} TrailingMeaning(traces: seq<Trace>, m: nat)
    ensures TrailingParseErrors(traces) >= m <==>
      |traces| >= m && forall i :: |traces| - m <= i < |traces| ==> traces[i].status == ParseError
  {
    if traces != [] && m > 0 {
      var n := |traces| - 1;
      TrailingMeaning(traces[..n], m - 1);
      assert forall i :: 0 <= i < n ==> traces[..n][i] == traces[i];
      if TrailingParseErrors(traces) >= m {
        forall i | |traces| - m <= i < |traces| ensures traces[i].status == ParseError {
          if i < n {
            assert traces[..n][i] == traces[i];
          }
        }
      }
    }
  }

  /** A run ends as a final answer exactly when one was accepted behind the gates, or when the model
      produced nothing readable for the allowed number of consecutive steps. */
  lemma FinalGate(e: Env, n: nat, reason: Reason)
    requires EndsAt(e, n, reason)
    ensures reason == FinalAnswer <==> AcceptedFinal(e, History(e, n)) || (n > 0 && LastUnparsable(e, History(e, n)))
  {
    TraceCount(e, n);
    FinalByExit(e, n, reason);
    FinalExits(e, History(e, n));
    TrailingMeaning(History(e, n).traces, e.cfg.maxFormatFailures);
    if n > 0 {
      FinalTraceMeaning(e, n);
    }
  }

  lemma FinalByExit(e: Env, n: nat, reason: Reason)
    requires EndsAt(e, n, reason)
    ensures reason == FinalAnswer <==> ExitAfter(e, History(e, n)) == Some(FinalAnswer)
  {
    PolicyIsNoVerdict(e, n);
  }

  lemma FinalExits(e: Env, h: Hist)
    ensures ExitAfter(e, h) == Some(FinalAnswer) <==>
      h.traces != [] && (h.traces[|h.traces| - 1].status == Final || TrailingParseErrors(h.traces) >= e.cfg.maxFormatFailures)
  {
  }

  /** A limit ends the run for a reason of its own, never for a verdict on a call. */
  lemma PolicyIsNoVerdict(e: Env, n: nat)
    ensures PolicyStop(e, n) in {None, Some(MaxStepsExceeded), Some(MaxToolCallsExceeded), Some(MaxExecutionTimeExceeded)}
  {
  }

  lemma FinalTraceMeaning(e: Env, n: nat)
    requires n > 0
    ensures var h := History(e, n);
      h.traces != [] && (h.traces[|h.traces| - 1].status == Final <==> AcceptedFinal(e, h))
  {
    var before, h := History(e, n - 1), History(e, n);
    assert h == Advance(e, before, Said(e, n - 1));
    if h.traces[|h.traces| - 1].status == Final {
      FinalStatusNeedsVerdict(e, before, Said(e, n - 1));
      HistoryNamed(e, n);
      PendingMeaning(h.log);
      OkNamesMeaning(h.log, e.required);
    }
  }

  lemma FinalStatusNeedsVerdict(e: Env, h: Hist, parse: Parse)
    requires var h' := Advance(e, h, parse); h'.traces[|h'.traces| - 1].status == Final
    ensures parse.Valid? && parse.output.FinalOut? && FinalVerdict(e, h.log) == Final
    ensures Advance(e, h, parse).log == h.log
    ensures var h' := Advance(e, h, parse); h'.traces[|h'.traces| - 1].parsed == parse
  {
  }

  /** While the model says nothing readable, nothing is executed and every step is a parse error. */
  lemma {:induction false} UnreadableHistory(e: Env, n: nat)
    requires forall k: nat :: e.model(k).parse.Invalid?
    ensures var h := History(e, n); |h.traces| == n && h.log == [] && TrailingParseErrors(h.traces) == n
    ensures n > 0 ==> History(e, n).traces[n - 1].status == ParseError
  {
    if n > 0 {
      var before := History(e, n - 1);
      UnreadableHistory(e, n - 1);
      assert Said(e, n - 1).Invalid?;
      UnreadableStep(e, before, Said(e, n - 1));
    }
  }

  lemma UnreadableStep(e: Env, h: Hist, parse: Parse)
    requires parse.Invalid?
    ensures var h' := Advance(e, h, parse); var n := |h.traces|;
      && |h'.traces| == n + 1 && h'.log == h.log && h'.traces[n].status == ParseError
      && TrailingParseErrors(h'.traces) == TrailingParseErrors(h.traces) + 1
  {
    var h' := Advance(e, h, parse);
    assert h'.traces[..|h.traces|] == h.traces;
  }

  /** A model that says nothing readable makes the run end as a final answer after the allowed number of
      steps, with nothing executed and whatever tool is required, unless a limit is due before. */
  lemma UnreadableEndsFinal(e: Env)
    requires forall k: nat :: e.model(k).parse.Invalid?
    requires forall i :: 0 <= i < e.cfg.maxFormatFailures ==> PolicyStop(e, i).None?
    ensures EndsAt(e, e.cfg.maxFormatFailures, FinalAnswer) && History(e, e.cfg.maxFormatFailures).log == []
  {
    UnreadableHistory(e, e.cfg.maxFormatFailures);
    forall i | 0 <= i <= e.cfg.maxFormatFailures
      ensures ExitAfter(e, History(e, i)) == OnlyIf(i == e.cfg.maxFormatFailures, FinalAnswer)
    {
      UnreadableHistory(e, i);
      UnreadableExit(e, History(e, i));
    }
  }

  lemma UnreadableExit(e: Env, h: Hist)
    requires |h.traces| == TrailingParseErrors(h.traces) <= e.cfg.maxFormatFailures
    requires h.traces != [] ==> h.traces[|h.traces| - 1].status == ParseError
    ensures ExitAfter(e, h) == OnlyIf(|h.traces| == e.cfg.maxFormatFailures, FinalAnswer)
  {
  }

  // ---------- Accounting ----------

  lemma {:induction false} BudgetKept(e: Env, n: nat)
    requires Reached(e, n)
    ensures n <= e.cfg.maxSteps && Executions(History(e, n).log) <= e.cfg.maxToolCalls
  {
    if n > 0 {
      assert PolicyStop(e, n - 1).None?;
      var before := History(e, n - 1);
      assert History(e, n) == Advance(e, before, Said(e, n - 1));
      AdvanceSpends(e, before, Said(e, n - 1));
    }
  }

  lemma {:induction false} AskedBound(e: Env, n: nat)
    ensures AskedBefore(e, n) <= n * (1 + e.cfg.maxRepairs)
  {
    if n > 0 {
      AskedBound(e, n - 1);
      Distribute(n - 1, 1 + e.cfg.maxRepairs);
    }
  }

  lemma AdvanceSpends(e: Env, h: Hist, parse: Parse)
    requires Executions(h.log) < e.cfg.maxToolCalls
    ensures Executions(Advance(e, h, parse).log) <= e.cfg.maxToolCalls
  {
    var log := Advance(e, h, parse).log;
    if log != h.log {
      assert log[..|log| - 1] == h.log;
    }
  }

  predicate IsExecuted(status: Status) {
    status == ToolCall || status == ToolConfigurationError || status == ToolTimeoutLimit
  }

  /** The calls shown by the traces, in order, with the arguments that finally ran. */
  function ShownCalls(traces: seq<Trace>): seq<Option<Request>> {
    if traces == [] then []
    else
      var last := traces[|traces| - 1];
      ShownCalls(traces[..|traces| - 1]) + if IsExecuted(last.status) then [last.toolCall] else []
  }

  function RanCalls(log: seq<Call>): seq<Option<Request>> {
    if log == [] then []
    else RanCalls(log[..|log| - 1]) + [Some(Request(log[|log| - 1].name, EffectiveArgs(log[|log| - 1])))]
  }

  /** The traces account for every executed call, once and in order. */
  lemma {:induction false} TracesShowCalls(e: Env, n: nat)
    ensures ShownCalls(History(e, n).traces) == RanCalls(History(e, n).log)
  {
    var hs := (k: nat) => History(e, k);
    forall k: nat, m: nat | m == k + 1 ensures Grows(hs(k), hs(m)) {
      HistoryGrows(e, m);
    }
    ShownAlong(hs, n);
  }

  lemma {:induction false} ShownAlong(hs: nat -> Hist, n: nat)
    requires hs(0) == Hist([], []) && forall k: nat, m: nat :: m == k + 1 ==> Grows(hs(k), hs(m))
    ensures ShownCalls(hs(n).traces) == RanCalls(hs(n).log)
  {
    if n > 0 {
      ShownAlong(hs, n - 1);
      GrowthShows(hs(n - 1), hs(n));
    }
  }

  /** Step i has exactly one trace, numbered i+1, holding what the model finally said there. */
  lemma {:induction false} TracesInOrder(e: Env, n: nat, i: nat)
    requires i < n
    ensures var t := History(e, n).traces; |t| == n && t[i].stepIndex == i + 1 && t[i].parsed == Said(e, i)
  {
    var before := History(e, n - 1);
    TraceCount(e, n - 1);
    AdvanceAppends(e, before, Said(e, n - 1));
    if i < n - 1 {
      TracesInOrder(e, n - 1, i);
      assert History(e, n).traces[i] == before.traces[i];
    }
  }

  lemma AdvanceAppends(e: Env, h: Hist, parse: Parse)
    ensures var t := Advance(e, h, parse).traces;
      && |t| == |h.traces| + 1 && t[..|h.traces|] == h.traces
      && t[|h.traces|].stepIndex == |h.traces| + 1 && t[|h.traces|].parsed == parse
  {
  }

  /** A trace is added, and a call exactly when that trace shows one as executed. */
  ghost predicate Grows(h: Hist, h': Hist) {
    var n, m := |h.traces|, |h.log|;
    && |h'.traces| == n + 1 && h'.traces[..n] == h.traces
    && (if IsExecuted(h'.traces[n].status)
        then |h'.log| == m + 1 && h'.log[..m] == h.log &&
             h'.traces[n].toolCall == Some(Request(h'.log[m].name, EffectiveArgs(h'.log[m])))
        else h'.log == h.log)
  }

  lemma GrowthShows(h: Hist, h': Hist)
    requires Grows(h, h') && ShownCalls(h.traces) == RanCalls(h.log)
    ensures ShownCalls(h'.traces) == RanCalls(h'.log)
  {
  }

  lemma AdvanceGrows(e: Env, h: Hist, parse: Parse)
    ensures Grows(h, Advance(e, h, parse))
  {
  }

  lemma HistoryGrows(e: Env, n: nat)
    requires n > 0
    ensures Grows(History(e, n - 1), History(e, n))
  {
    AdvanceGrows(e, History(e, n - 1), Said(e, n - 1));
  }

  /** Every run stays within its step, tool and model budgets and ends for a stated reason. */
  lemma RunAccounting(e: Env, n: nat, reason: Reason)
    requires EndsAt(e, n, reason)
    ensures |History(e, n).traces| == n <= e.cfg.maxSteps
    ensures Executions(History(e, n).log) <= e.cfg.maxToolCalls
    ensures AskedBefore(e, n) <= e.cfg.maxSteps * (1 + e.cfg.maxRepairs)
    ensures reason != Running && reason != FatalRuntimeError
  {
    TraceCount(e, n);
    BudgetsKept(e, n);
    ReasonIsStated(e, n, reason);
  }

  lemma BudgetsKept(e: Env, n: nat)
    requires Reached(e, n)
    ensures n <= e.cfg.maxSteps && Executions(History(e, n).log) <= e.cfg.maxToolCalls
    ensures AskedBefore(e, n) <= e.cfg.maxSteps * (1 + e.cfg.maxRepairs)
  {
    BudgetKept(e, n);
    AskedBound(e, n);
    Monotone(n, e.cfg.maxSteps, 1 + e.cfg.maxRepairs);
  }

  lemma ReasonIsStated(e: Env, n: nat, reason: Reason)
    requires EndsAt(e, n, reason)
    ensures reason != Running && reason != FatalRuntimeError
  {
    PolicyIsNoVerdict(e, n);
    ExitIsStated(e, History(e, n));
  }

  lemma ExitIsStated(e: Env, h: Hist)
    ensures ExitAfter(e, h) != Some(Running) && ExitAfter(e, h) != Some(FatalRuntimeError)
  {
  }

  lemma Monotone(a: nat, b: nat, c: nat)
    requires a <= b
    ensures a * c <= b * c
  {
    assert b * c == a * c + (b - a) * c;
  }

  // ---------- The limits ----------

  /** Step n starts in time: within the seconds allowed, plus those earned by the model errors and unreadable
      steps so far, up to the maximum that can be earned. */
  ghost predicate InTime(e: Env, n: nat) {
    var errors, failures := ErrorsBefore(e.model, AskedBefore(e, n)), CountStatus(History(e, n).traces, ParseError);
    var earned := errors * e.cfg.extraPerLlmError + failures * e.cfg.extraPerFormatFailure;
    && e.elapsed(n) < (e.cfg.maxExecutionSeconds + earned) as real
    && e.elapsed(n) < (e.cfg.maxExecutionSeconds + e.cfg.maxExtra) as real
  }

  ghost predicate CallsLeft(e: Env, n: nat) {
    Executions(History(e, n).log) < e.cfg.maxToolCalls
  }

  /** Step i may start: there are steps, calls and time left. */
  ghost predicate WithinLimits(e: Env, i: nat) {
    i < e.cfg.maxSteps && CallsLeft(e, i) && InTime(e, i)
  }

  /** No step starts beyond a limit, and where no verdict ends the run, the first limit reached does. */
  ghost predicate LimitsKept(e: Env, n: nat, reason: Reason) {
    var isOpen := ExitAfter(e, History(e, n)).None?;
    && (forall i: nat :: i < n ==> WithinLimits(e, i))
    && (reason == MaxStepsExceeded <==> isOpen && n == e.cfg.maxSteps)
    && (reason == MaxToolCallsExceeded <==> isOpen && n < e.cfg.maxSteps && !CallsLeft(e, n))
    && (reason == MaxExecutionTimeExceeded <==> isOpen && n < e.cfg.maxSteps && CallsLeft(e, n) && !InTime(e, n))
  }

  lemma PolicyMeaning(e: Env, n: nat)
    ensures PolicyStop(e, n) ==
      if n >= e.cfg.maxSteps then Some(MaxStepsExceeded)
      else if !CallsLeft(e, n) then Some(MaxToolCallsExceeded)
      else if !InTime(e, n) then Some(MaxExecutionTimeExceeded)
      else None
  {
  }

  lemma StepsWithinLimits(e: Env, n: nat)
    requires Reached(e, n)
    ensures forall i: nat :: i < n ==> WithinLimits(e, i)
  {
    forall i: nat | i < n ensures WithinLimits(e, i) {
      assert PolicyStop(e, i).None?;
      PolicyMeaning(e, i);
    }
  }

  /** Which exit a run takes: the verdict if one is due, and the limit otherwise. */
  lemma ExitTaken(e: Env, n: nat, reason: Reason)
    requires EndsAt(e, n, reason)
    ensures n <= e.cfg.maxSteps
    ensures ExitAfter(e, History(e, n)).Some? ==> reason !in LIMITS
    ensures ExitAfter(e, History(e, n)).None? ==> PolicyStop(e, n) == Some(reason)
  {
    BudgetKept(e, n);
    ExitDecides(e, n, reason);
    VerdictIsNoLimit(e, History(e, n));
  }

  /** A run never starts a step out of time, steps or calls, and ends for one of these reasons exactly when that
      is the first limit reached and no verdict is due. */
  lemma LimitsDecide(e: Env, n: nat, reason: Reason)
    requires EndsAt(e, n, reason)
    ensures LimitsKept(e, n, reason)
  {
    StepsWithinLimits(e, n);
    ExitTaken(e, n, reason);
    PolicyMeaning(e, n);
  }

  const LIMITS: set<Reason> := {MaxStepsExceeded, MaxToolCallsExceeded, MaxExecutionTimeExceeded}

  lemma VerdictIsNoLimit(e: Env, h: Hist)
    ensures ExitAfter(e, h).Some? ==> ExitAfter(e, h).value !in LIMITS
  {
  }

  // ---------- Blocked calls ----------

  lemma {:induction false} BlockedAtMostOnce(traces: seq<Trace>)
    ensures BlockedRun(true, traces) <= 1
  {
    if traces != [] {
      BlockedAtMostOnce(traces[..|traces| - 1]);
    }
  }

  /** With tools enabled a run ends by the limit of blocked calls exactly when that limit is 1 and its last
      step was blocked: a limit of 2 or more is never reached, because every tool call resets the counter
      before it is raised. */
  lemma BlockedLimitOnlyAtOne(e: Env, n: nat, reason: Reason)
    requires EndsAt(e, n, reason) && e.allowTools
    ensures reason == ToolCallBlockedLimit <==>
      e.cfg.maxBlocked == 1 && LastIs(History(e, n).traces, ToolCallBlocked)
  {
    BlockedByExit(e, n, reason);
    BlockedExit(e, History(e, n));
  }

  ghost predicate LastIs(traces: seq<Trace>, status: Status) {
    traces != [] && traces[|traces| - 1].status == status
  }

  lemma BlockedByExit(e: Env, n: nat, reason: Reason)
    requires EndsAt(e, n, reason)
    ensures reason == ToolCallBlockedLimit <==> ExitAfter(e, History(e, n)) == Some(ToolCallBlockedLimit)
  {
    PolicyIsNoVerdict(e, n);
  }

  lemma BlockedExit(e: Env, h: Hist)
    requires e.allowTools
    ensures ExitAfter(e, h) == Some(ToolCallBlockedLimit) <==> e.cfg.maxBlocked == 1 && LastIs(h.traces, ToolCallBlocked)
  {
    BlockedAtMostOnce(h.traces);
  }

  // ---------- Timeouts ----------

  ghost predicate HasTimedOut(c: Call) {
    !Outcome(c).ok && Outcome(c).error.Some? && Outcome(c).error.value.code == "TIMEOUT"
  }

  /** The last call of this tool timed out. */
  ghost predicate LastTimedOut(log: seq<Call>, name: string) {
    exists i :: 0 <= i < |log| && log[i].name == name && HasTimedOut(log[i]) && forall j :: i < j < |log| ==> log[j].name != name
  }

  /** This call timed out, and so did the one before it of the same tool. */
  ghost predicate SecondTimeout(log: seq<Call>, j: nat)
    requires j < |log|
  {
    HasTimedOut(log[j]) && LastTimedOut(log[..j], log[j].name)
  }

  lemma {:induction false} StreakMeaning(log: seq<Call>, name: string)
    ensures TimeoutStreak(log, name) >= 1 <==> LastTimedOut(log, name)
  {
    if log != [] {
      var n := |log| - 1;
      StreakMeaning(log[..n], name);
      assert forall i :: 0 <= i < n ==> log[..n][i] == log[i];
      if log[n].name != name && LastTimedOut(log[..n], name) {
        var i :| 0 <= i < n && log[..n][i].name == name && HasTimedOut(log[..n][i]) &&
          forall j :: i < j < n ==> log[..n][j].name != name;
        assert log[i].name == name && forall j :: i < j < |log| ==> log[j].name != name;
      }
    }
  }

  /** An executed call ends the run by its timeout exactly if it is a second one in a row. */
  lemma ExecutedTimeout(log: seq<Call>)
    requires log != []
    ensures ExecutedStatus(log) == ToolTimeoutLimit <==> SecondTimeout(log, |log| - 1)
  {
    var n := |log| - 1;
    StreakMeaning(log[..n], log[n].name);
    assert Strip("TIMEOUT") == "TIMEOUT";
  }

  /** A step adds at most one call, and is marked as a timeout exactly when that call is a second one. */
  ghost predicate TimesOut(h: Hist, h': Hist) {
    var n := |h.log|;
    && n <= |h'.log| <= n + 1 && h'.log[..n] == h.log
    && (LastIs(h'.traces, ToolTimeoutLimit) <==> |h'.log| > n && SecondTimeout(h'.log, n))
  }

  lemma AdvanceTimesOut(e: Env, h: Hist, parse: Parse)
    ensures TimesOut(h, Advance(e, h, parse))
  {
    var h' := Advance(e, h, parse);
    if |h'.log| > |h.log| {
      ExecutedTimeout(h'.log);
    }
  }

  lemma SecondTimeoutInPrefix(log: seq<Call>, n: nat, j: nat)
    requires j < n <= |log|
    ensures SecondTimeout(log[..n], j) <==> SecondTimeout(log, j)
  {
    assert log[..n][..j] == log[..j] && log[..n][j] == log[j];
  }

  lemma {:induction false} TimeoutAlong(hs: nat -> Hist, n: nat, j: nat) returns (k: nat)
    requires hs(0).log == [] && forall k: nat, m: nat :: m == k + 1 ==> TimesOut(hs(k), hs(m))
    requires j < |hs(n).log| && SecondTimeout(hs(n).log, j)
    ensures 0 < k <= n && LastIs(hs(k).traces, ToolTimeoutLimit)
    ensures k == n ==> j == |hs(n).log| - 1
  {
    var before, log := hs(n - 1).log, hs(n).log;
    assert TimesOut(hs(n - 1), hs(n));
    if j < |before| {
      SecondTimeoutInPrefix(log, |before|, j);
      k := TimeoutAlong(hs, n - 1, j);
    } else {
      k := n;
    }
  }

  /** A second timeout was the end of the step that made the call. */
  lemma SecondTimeoutStep(e: Env, n: nat, j: nat) returns (k: nat)
    requires j < |History(e, n).log| && SecondTimeout(History(e, n).log, j)
    ensures 0 < k <= n && LastIs(History(e, k).traces, ToolTimeoutLimit)
    ensures k == n ==> j == |History(e, n).log| - 1
  {
    var hs := (k: nat) => History(e, k);
    forall k: nat, m: nat | m == k + 1 ensures TimesOut(hs(k), hs(m)) {
      AdvanceTimesOut(e, History(e, k), Said(e, k));
      HistoryUnfolds(e, k);
    }
    k := TimeoutAlong(hs, n, j);
  }

  lemma TimeoutExit(e: Env, h: Hist)
    ensures ExitAfter(e, h) == Some(TimeoutLimit) <==> LastIs(h.traces, ToolTimeoutLimit)
  {
  }

  /** A run ends by the timeout limit exactly when some tool timed out twice in a row, and then with that call. */
  lemma TimeoutLimitIff(e: Env, n: nat, reason: Reason)
    requires EndsAt(e, n, reason)
    ensures var log := History(e, n).log;
      && (reason == TimeoutLimit <==> exists j: nat :: j < |log| && SecondTimeout(log, j))
      && (forall j: nat :: j < |log| && SecondTimeout(log, j) ==> j == |log| - 1)
  {
    var log := History(e, n).log;
    forall j: nat | j < |log| && SecondTimeout(log, j) ensures reason == TimeoutLimit && j == |log| - 1 {
      var k := SecondTimeoutStep(e, n, j);
      TimeoutExit(e, History(e, k));
      ExitIsTheEnd(e, n, reason, k, Some(TimeoutLimit));
    }
    if reason == TimeoutLimit {
      PolicyIsNoVerdict(e, n);
      TimeoutExit(e, History(e, n));
      AdvanceTimesOut(e, History(e, n - 1), Said(e, n - 1));
      assert SecondTimeout(log, |log| - 1);
    }
  }

  // ---------- Tools disabled ----------

  lemma {:induction false} NothingExecuted(e: Env, n: nat)
    requires !e.allowTools
    ensures History(e, n).log == []
  {
    if n > 0 {
      NothingExecuted(e, n - 1);
    }
  }

  /** With tools disabled and no required tool, the first readable final answer ends the run. */
  lemma FirstFinalAccepted(e: Env, n: nat, reason: Reason, i: nat)
    requires EndsAt(e, n, reason) && !e.allowTools && e.required == ""
    requires i < n && Said(e, i).Valid? && Said(e, i).output.FinalOut?
    ensures i == n - 1 && reason == FinalAnswer
  {
    FinalEndsRun(e, i);
    ExitIsTheEnd(e, n, reason, i + 1, Some(FinalAnswer));
  }

  /** The first step that calls for an end is the last step. */
  lemma ExitIsTheEnd(e: Env, n: nat, reason: Reason, i: nat, exit: Option<Reason>)
    ensures EndsAt(e, n, reason) && i <= n && exit == ExitAfter(e, History(e, i)) && exit.Some? ==>
      i == n && exit == Some(reason)
  {
    if EndsAt(e, n, reason) {
      NoExitBefore(e, n, i);
      ExitDecides(e, n, reason);
    }
  }

  lemma FinalEndsRun(e: Env, i: nat)
    requires !e.allowTools && e.required == "" && Said(e, i).Valid? && Said(e, i).output.FinalOut?
    ensures ExitAfter(e, History(e, i + 1)) == Some(FinalAnswer)
  {
    NothingExecuted(e, i);
    FinalEndsIt(e, History(e, i), Said(e, i));
    HistoryUnfolds(e, i);
  }

  lemma ExitDecides(e: Env, n: nat, reason: Reason)
    requires EndsAt(e, n, reason)
    ensures ExitAfter(e, History(e, n)).Some? ==> ExitAfter(e, History(e, n)) == Some(reason)
  {
  }

  lemma FinalEndsIt(e: Env, h: Hist, parse: Parse)
    requires h.log == [] && e.required == "" && parse.Valid? && parse.output.FinalOut?
    ensures ExitAfter(e, Advance(e, h, parse)) == Some(FinalAnswer)
  {
  }

  lemma HistoryUnfolds(e: Env, i: nat)
    ensures History(e, i + 1) == Advance(e, History(e, i), Said(e, i))
  {
  }

  lemma NoExitBefore(e: Env, n: nat, i: nat)
    requires Reached(e, n)
    ensures i < n ==> ExitAfter(e, History(e, i)).None?
  {
  }

  // ---------- All of it, for the method that runs ----------

  ghost predicate SafeRun(e: Env, h: Hist, steps: nat, asked: nat, reason: Reason) {
    && |h.traces| == steps <= e.cfg.maxSteps
    && asked <= e.cfg.maxSteps * (1 + e.cfg.maxRepairs)
    && Executions(h.log) <= e.cfg.maxToolCalls
    && AllPermitted(e, h.log)
    && reason != Running && reason != FatalRuntimeError
    && (reason == FinalAnswer <==> AcceptedFinal(e, h) || (steps > 0 && LastUnparsable(e, h)))
    && LimitsKept(e, steps, reason)
    && (reason == TimeoutLimit <==> exists j: nat :: j < |h.log| && SecondTimeout(h.log, j))
  }

  lemma RunIsSafe(e: Env, n: nat, reason: Reason)
    requires EndsAt(e, n, reason)
    ensures SafeRun(e, History(e, n), n, AskedBefore(e, n), reason)
  {
    RunAccounting(e, n, reason);
    FinalGate(e, n, reason);
    HistoryPermitted(e, n);
    LimitsDecide(e, n, reason);
    TimeoutLimitIff(e, n, reason);
  }
}
