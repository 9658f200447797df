/** Choosing the skills, the tool permission and the required first tool of a run: from the plan of
    the routing model where that is usable, from rules over the message otherwise. */
module Routing {
  import opened Text
  import AgentHistory
  import AgentSafety

  datatype Skill = Skill(skillId: string, content: string)

  datatype MemoryMode = Full | LongTermOnly

  datatype Plan = Plan(skillIds: seq<string>, allowTools: bool, requiredTool: string, memoryMode: MemoryMode)

  datatype PlanError = Unreadable | EmptySelection | NothingKnown | UnknownTool
  datatype Verdict = Accepted(plan: Plan) | Rejected(error: PlanError)

  /** What the word lists find in a message. */
  datatype Message = Message(
    feedback: bool, email: bool, digestContext: bool, preference: bool, domainList: bool, note: bool,
    topic: bool, channelList: bool, keywordList: bool, search: bool, sources: bool, composer: bool,
    recurringJob: bool, reminder: bool, confirmation: bool, news: bool,
    explicitRecurring: bool, toolLikely: bool)

  datatype Source = Llm | Fallback

  datatype Resolution = Resolution(skills: seq<Skill>, allowTools: bool, requiredTool: string,
                                   memoryMode: MemoryMode, source: Source)

  /** The catalog lists each skill once; the settings allow between one and four selected skills. */
  datatype Router = Router(catalog: seq<Skill>, tools: set<string>, maxCount: nat)
  {
    ghost predicate Valid() {
      1 <= maxCount <= 4 && DistinctIds(catalog)
    }
  }

  const DEFAULT := "default_assistant"
  const EMAIL_FEEDBACK := "email_preference_feedback"
  const DIGEST_FEEDBACK := "telegram_digest_feedback"
  const NOTE := "remember_user_note"
  const TOPIC := "user_topic_telegram_digest"
  const WEB := "web_research"
  const EMAIL := "read_and_analyze_email"
  const COMPOSE := "compose_digest"
  const RECURRING := "schedule_recurring_agent_run"
  const REMINDER := "schedule_reminder"
  const NEWS := "telegram_news_digest"

  ghost predicate DistinctIds(skills: seq<Skill>) {
    forall i, j :: 0 <= i < j < |skills| ==> skills[i].skillId != skills[j].skillId
  }

  function IdsOf(skills: seq<Skill>): set<string> {
    set s | s in skills :: s.skillId
  }

  function SetOf(ids: seq<string>): set<string> {
    set id | id in ids
  }

  // ---------- Picking skills from the catalog ----------

  function Filter(catalog: seq<Skill>, ids: set<string>): seq<Skill> {
    if catalog == [] then []
    else
      var last := catalog[|catalog| - 1];
      Filter(catalog[..|catalog| - 1], ids) + if last.skillId in ids then [last] else []
  }

  function Take<T>(s: seq<T>, n: nat): seq<T> {
    if |s| <= n then s else s[..n]
  }

  function Pick(catalog: seq<Skill>, ids: set<string>, maxCount: nat): seq<Skill> {
    Take(Filter(catalog, ids), maxCount)
  }

  lemma FilterSnoc(catalog: seq<Skill>, i: nat, ids: set<string>)
    requires i < |catalog|
    ensures Filter(catalog[..i + 1], ids) ==
      Filter(catalog[..i], ids) + if catalog[i].skillId in ids then [catalog[i]] else []
  {
    assert catalog[..i + 1][..i] == catalog[..i];
  }

  lemma {:induction false} FilterExtends(catalog: seq<Skill>, i: nat, ids: set<string>)
    requires i <= |catalog|
    ensures Filter(catalog[..i], ids) <= Filter(catalog, ids)
    decreases |catalog| - i
  {
    if i < |catalog| {
      FilterSnoc(catalog, i, ids);
      FilterExtends(catalog, i + 1, ids);
    } else {
      assert catalog[..i] == catalog;
    }
  }

  /** Walks the catalog and stops once enough skills are picked. */
  method PickSkillItems(skills: seq<Skill>, selectedIds: seq<string>, maxCount: nat) returns (picked: seq<Skill>)
    requires maxCount >= 1
    ensures picked == Pick(skills, SetOf(selectedIds), maxCount)
  {
    picked := [];
    ghost var ids := SetOf(selectedIds);
    assert skills[..|skills|] == skills;
    for i := 0 to |skills|
      invariant picked == Filter(skills[..i], ids) && |picked| < maxCount
    {
      FilterSnoc(skills, i, ids);
      if skills[i].skillId in selectedIds {
        picked := picked + [skills[i]];
      }
      if |picked| >= maxCount {
        FilterExtends(skills, i + 1, ids);
        return;
      }
    }
  }

  lemma {:induction false} FilterKeeps(catalog: seq<Skill>, ids: set<string>)
    ensures forall s :: s in Filter(catalog, ids) <==> s in catalog && s.skillId in ids
  {
    if catalog != [] {
      var n := |catalog| - 1;
      assert catalog == catalog[..n] + [catalog[n]];
      FilterKeeps(catalog[..n], ids);
    }
  }

  /** A skill is picked if and only if it is selected and fewer than the maximum of the selected skills
      come before it in the catalog. */
  lemma PickedIff(catalog: seq<Skill>, i: nat, ids: set<string>, maxCount: nat)
    requires i < |catalog| && DistinctIds(catalog)
    ensures catalog[i] in Pick(catalog, ids, maxCount) <==>
      catalog[i].skillId in ids && |Filter(catalog[..i], ids)| < maxCount
  {
    var x, k := catalog[i], |Filter(catalog[..i], ids)|;
    var all := Filter(catalog, ids);
    FilterSnoc(catalog, i, ids);
    FilterExtends(catalog, i, ids);
    FilterExtends(catalog, i + 1, ids);
    FilterKeeps(catalog, ids);
    FilterDistinct(catalog, ids);
    if x.skillId in ids {
      assert all[k] == x;
      assert forall j :: 0 <= j < |all| && all[j] == x ==> j == k;
    }
  }

  lemma {:induction false} FilterDistinct(catalog: seq<Skill>, ids: set<string>)
    requires DistinctIds(catalog)
    ensures DistinctIds(Filter(catalog, ids))
  {
    if catalog != [] {
      var n := |catalog| - 1;
      var before := Filter(catalog[..n], ids);
      FilterDistinct(catalog[..n], ids);
      FilterKeeps(catalog[..n], ids);
      forall j | 0 <= j < |before| ensures before[j].skillId != catalog[n].skillId {
        assert before[j] in catalog[..n];
      }
    }
  }

  /** The first list is what remains of the second when some members are struck out. */
  ghost predicate IsSublist<T(!new)>(part: seq<T>, whole: seq<T>) {
    part == [] ||
    (whole != [] &&
     (IsSublist(part, whole[..|whole| - 1]) ||
      (part[|part| - 1] == whole[|whole| - 1] && IsSublist(part[..|part| - 1], whole[..|whole| - 1]))))
  }

  lemma {:induction false} PickInOrder(catalog: seq<Skill>, ids: set<string>, maxCount: nat)
    ensures IsSublist(Pick(catalog, ids, maxCount), catalog)
  {
    if catalog != [] {
      var n := |catalog| - 1;
      PickInOrder(catalog[..n], ids, maxCount);
      var before := Filter(catalog[..n], ids);
      var all := Filter(catalog, ids);
      assert all == before || all == before + [catalog[n]];
      if |before| < maxCount && all != before {
        assert all[..|all| - 1] == before;
      } else {
        assert Take(all, maxCount) == Take(before, maxCount);
      }
    }
  }

  /** Any ids between those of the picked skills and the selected ones pick the same skills. */
  lemma {:induction false} PickAgain(catalog: seq<Skill>, ids: set<string>, again: set<string>, maxCount: nat)
    requires IdsOf(Pick(catalog, ids, maxCount)) <= again <= ids
    ensures Pick(catalog, again, maxCount) == Pick(catalog, ids, maxCount)
  {
    if catalog != [] {
      var n := |catalog| - 1;
      var last := catalog[n];
      var before := Filter(catalog[..n], ids);
      var all := Filter(catalog, ids);
      assert Take(before, maxCount) <= Take(all, maxCount);
      assert forall s :: s in Take(before, maxCount) ==> s in Take(all, maxCount);
      PickAgain(catalog[..n], ids, again, maxCount);
      if |before| < maxCount && last.skillId in ids {
        assert last in Take(all, maxCount);
      }
    }
  }

  /** Picking a second time, with the default skill added, changes nothing. */
  lemma SecondPickChangesNothing(catalog: seq<Skill>, ids: set<string>, maxCount: nat)
    requires DEFAULT in ids
    ensures Pick(catalog, IdsOf(Pick(catalog, ids, maxCount)) + {DEFAULT}, maxCount) == Pick(catalog, ids, maxCount)
    ensures Pick(catalog, IdsOf(Pick(catalog, ids, maxCount)), maxCount) == Pick(catalog, ids, maxCount)
  {
    FilterKeeps(catalog, ids);
    PickAgain(catalog, ids, IdsOf(Pick(catalog, ids, maxCount)) + {DEFAULT}, maxCount);
    PickAgain(catalog, ids, IdsOf(Pick(catalog, ids, maxCount)), maxCount);
  }

  // ---------- Cleaning lists of ids ----------

  /** The trimmed non-blank entries, each at its first occurrence. */
  function DistinctTrimmed(raw: seq<string>): seq<string> {
    if raw == [] then []
    else
      var before, id := DistinctTrimmed(raw[..|raw| - 1]), Strip(raw[|raw| - 1]);
      if id != "" && id !in before then before + [id] else before
  }

  lemma {:induction false} TrimmedFacts(raw: seq<string>)
    ensures NoRepeats(DistinctTrimmed(raw))
    ensures forall id :: id in DistinctTrimmed(raw) <==> id != "" && exists x :: x in raw && Strip(x) == id
  {
    if raw != [] {
      var n := |raw| - 1;
      assert raw == raw[..n] + [raw[n]];
      TrimmedFacts(raw[..n]);
      assert raw[n] in raw;
    }
  }

  ghost predicate Clean(ids: seq<string>) {
    NoRepeats(ids) && forall id :: id in ids ==> id != "" && Strip(id) == id
  }

  lemma {:induction false} CleanIsKept(ids: seq<string>)
    requires Clean(ids)
    ensures DistinctTrimmed(ids) == ids
  {
    if ids != [] {
      var n := |ids| - 1;
      assert ids == ids[..n] + [ids[n]];
      assert forall id :: id in ids[..n] ==> id in ids;
      CleanIsKept(ids[..n]);
      assert forall i :: 0 <= i < n ==> ids[..n][i] != ids[n];
    }
  }

  lemma TrimmedIsClean(raw: seq<string>)
    ensures Clean(DistinctTrimmed(raw))
  {
    TrimmedFacts(raw);
    forall id | id in DistinctTrimmed(raw) ensures Strip(id) == id {
      var x :| x in raw && Strip(x) == id;
      StripIdempotent(x);
    }
  }

  /** The loop over the raw ids that both the validation and the resolver run. */
  method TrimIds(raw: seq<string>) returns (ids: seq<string>)
    ensures ids == DistinctTrimmed(raw)
  {
    ids := [];
    assert raw[..|raw|] == raw;
    for i := 0 to |raw|
      invariant ids == DistinctTrimmed(raw[..i])
    {
      assert raw[..i + 1][..i] == raw[..i];
      var id := Strip(raw[i]);
      if id != "" && id !in ids {
        ids := ids + [id];
      }
    }
  }

  /** Puts the default skill first unless the list already has it. */
  method PrependDefaultAssistant(raw: seq<string>) returns (ids: seq<string>)
    ensures Clean(ids)
    ensures forall id :: id in ids <==> id == DEFAULT || (id != "" && exists x :: x in raw && Strip(x) == id)
  {
    ids := TrimIds(raw);
    TrimmedIsClean(raw);
    TrimmedFacts(raw);
    if DEFAULT !in ids {
      assert Strip(DEFAULT) == DEFAULT;
      ids := [DEFAULT] + ids;
    }
  }

  /** On trimmed ids only the default skill can be new. */
  lemma PrependedIds(raw: seq<string>, ids: seq<string>)
    requires forall id :: id in ids <==> id == DEFAULT || (id != "" && exists x :: x in raw && Strip(x) == id)
    requires forall x :: x in raw ==> x != "" && Strip(x) == x
    ensures SetOf(ids) == SetOf(raw) + {DEFAULT}
  {
    assert forall id :: id in raw ==> id in ids;
  }

  // ---------- Validating the plan ----------

  function Known(ids: seq<string>, known: set<string>): seq<string> {
    if ids == [] then []
    else
      var last := ids[|ids| - 1];
      Known(ids[..|ids| - 1], known) + if last in known then [last] else []
  }

  lemma {:induction false} KnownFacts(ids: seq<string>, known: set<string>)
    ensures forall id :: id in Known(ids, known) <==> id in ids && id in known
    ensures NoRepeats(ids) ==> NoRepeats(Known(ids, known))
  {
    if ids != [] {
      var n := |ids| - 1;
      assert ids == ids[..n] + [ids[n]];
      KnownFacts(ids[..n], known);
      if NoRepeats(ids) {
        assert forall i :: 0 <= i < n ==> ids[..n][i] != ids[n];
        assert ids[n] !in ids[..n];
      }
    }
  }

  lemma {:induction false} AllKnown(ids: seq<string>, known: set<string>)
    requires forall id :: id in ids ==> id in known
    ensures Known(ids, known) == ids
  {
    if ids != [] {
      var before, last := ids[..|ids| - 1], ids[|ids| - 1];
      assert ids == before + [last];
      assert forall id :: id in before ==> id in ids;
      AllKnown(before, known);
    }
  }

  function Validated(plan: Plan, known: set<string>, tools: set<string>): Verdict {
    var ids := DistinctTrimmed(plan.skillIds);
    var kept, tool := Known(ids, known), Strip(plan.requiredTool);
    if ids == [] then Rejected(EmptySelection)
    else if kept == [] then Rejected(NothingKnown)
    else if tool != "" && tool !in tools then Rejected(UnknownTool)
    else Accepted(plan.(skillIds := kept, requiredTool := if plan.allowTools then tool else ""))
  }

  method ValidateAgainstCatalog(plan: Plan, known: set<string>, tools: set<string>) returns (v: Verdict)
    ensures v == Validated(plan, known, tools)
  {
    var ids := TrimIds(plan.skillIds);
    if |ids| == 0 {
      return Rejected(EmptySelection);
    }
    var kept: seq<string> := [];
    assert ids[..|ids|] == ids;
    for i := 0 to |ids|
      invariant kept == Known(ids[..i], known)
    {
      assert ids[..i + 1][..i] == ids[..i];
      if ids[i] in known {
        kept := kept + [ids[i]];
      }
    }
    if |kept| == 0 {
      return Rejected(NothingKnown);
    }
    var tool := Strip(plan.requiredTool);
    if tool != "" && tool !in tools {
      return Rejected(UnknownTool);
    }
    if !plan.allowTools && tool != "" {
      tool := "";
    }
    v := Accepted(Plan(kept, plan.allowTools, tool, plan.memoryMode));
  }

  /** Which plans are refused: those naming no skill, no known skill, or a tool that is not registered,
      even where tools are disallowed. An accepted plan has the known ids that were named, each once,
      and a required tool only where tools are allowed and only a registered one. */
  lemma ValidationMeaning(plan: Plan, known: set<string>, tools: set<string>)
    ensures var v := Validated(plan, known, tools);
      && (v.Accepted? <==>
          (exists x :: x in plan.skillIds && Strip(x) != "" && Strip(x) in known) &&
          (Strip(plan.requiredTool) == "" || Strip(plan.requiredTool) in tools))
      && (v == Rejected(EmptySelection) <==> forall x :: x in plan.skillIds ==> Strip(x) == "")
      && (v.Accepted? ==>
            && Clean(v.plan.skillIds)
            && (forall id :: id in v.plan.skillIds <==>
                  id != "" && id in known && exists x :: x in plan.skillIds && Strip(x) == id)
            && (v.plan.requiredTool == "" || (v.plan.allowTools && v.plan.requiredTool in tools)))
  {
    var ids := DistinctTrimmed(plan.skillIds);
    TrimmedFacts(plan.skillIds);
    TrimmedIsClean(plan.skillIds);
    KnownFacts(ids, known);
    assert ids == [] <==> forall id :: id !in ids by {
      if ids != [] {
        assert ids[0] in ids;
      }
    }
    var kept := Known(ids, known);
    assert kept == [] <==> forall id :: id !in kept by {
      if kept != [] {
        assert kept[0] in kept;
      }
    }
    if exists x :: x in plan.skillIds && Strip(x) != "" {
      var x :| x in plan.skillIds && Strip(x) != "";
      assert Strip(x) in ids;
    }
  }

  /** Validating an accepted plan again changes nothing. */
  lemma ValidationIsIdempotent(plan: Plan, known: set<string>, tools: set<string>)
    requires Validated(plan, known, tools).Accepted?
    ensures Validated(Validated(plan, known, tools).plan, known, tools) == Validated(plan, known, tools)
  {
    ValidationMeaning(plan, known, tools);
    var p := Validated(plan, known, tools).plan;
    CleanIsKept(p.skillIds);
    AllKnown(p.skillIds, known);
    StripIdempotent(plan.requiredTool);
  }

  // ---------- Rules over the message ----------

  predicate WantsFeedback(m: Message) {
    (m.email && (m.feedback || m.domainList)) || (!m.email && m.feedback && (m.digestContext || m.preference))
  }

  predicate WantsTopic(m: Message) {
    !WantsFeedback(m) && (m.topic || m.channelList || m.keywordList)
  }

  /** Which skills the rules select. */
  predicate Wants(m: Message, id: string) {
    || id == DEFAULT
    || (id == EMAIL_FEEDBACK && m.email && (m.feedback || m.domainList))
    || (id == DIGEST_FEEDBACK && !m.email && m.feedback && (m.digestContext || m.preference))
    || (id == NOTE && !WantsFeedback(m) && m.note)
    || (id == TOPIC && WantsTopic(m))
    || (id == WEB && (m.search || m.sources))
    || (id == EMAIL && m.email)
    || (id == COMPOSE && m.composer && !WantsTopic(m))
    || (id == RECURRING && m.recurringJob)
    || (id == REMINDER && (m.reminder || m.confirmation))
    || (id == NEWS && !WantsFeedback(m) && !WantsTopic(m) && !m.email && m.news)
  }

  const ALL_IDS: set<string> := {DEFAULT, EMAIL_FEEDBACK, DIGEST_FEEDBACK, NOTE, TOPIC, WEB, EMAIL, COMPOSE,
                                 RECURRING, REMINDER, NEWS}

  function WantedIds(m: Message): set<string> {
    set id | id in ALL_IDS && Wants(m, id)
  }

  function InsertSecond(ids: seq<string>, id: string): (r: seq<string>)
    requires ids != []
    ensures r != [] && r[0] == ids[0]
    ensures forall x :: x in r <==> x in ids || x == id
  {
    assert ids == [ids[0]] + ids[1..];
    [ids[0], id] + ids[1..]
  }

  /** The skills chosen by rules; the default skill is always the first. */
  method SelectRelevantSkillIds(m: Message) returns (ids: seq<string>)
    ensures ids != [] && ids[0] == DEFAULT
    ensures forall id :: id in ids <==> Wants(m, id)
  {
    ids := FeedbackIds(m);
    var hasFeedback := DIGEST_FEEDBACK in ids || EMAIL_FEEDBACK in ids;
    ids := AddNoteAndTopic(m, ids, hasFeedback);
    ids := AddReading(m, ids);
    ids := AddSchedules(m, ids);
    if !hasFeedback && TOPIC !in ids && !m.email && m.news {
      ids := ids + [NEWS];
    }
  }

  method AddNoteAndTopic(m: Message, ids0: seq<string>, hasFeedback: bool) returns (ids: seq<string>)
    requires ids0 != []
    ensures ids != [] && ids[0] == ids0[0]
    ensures forall id :: id in ids <==> (id in ids0 || (id == NOTE && !hasFeedback && m.note) ||
      (id == TOPIC && !hasFeedback && (m.topic || m.channelList || m.keywordList)))
  {
    ids := ids0;
    if !hasFeedback && m.note && NOTE !in ids {
      ids := InsertSecond(ids, NOTE);
    }
    if !hasFeedback && m.topic && TOPIC !in ids {
      ids := InsertSecond(ids, TOPIC);
    } else if !hasFeedback && m.channelList && TOPIC !in ids {
      ids := InsertSecond(ids, TOPIC);
    } else if !hasFeedback && m.keywordList && TOPIC !in ids {
      ids := InsertSecond(ids, TOPIC);
    }
  }

  method AddReading(m: Message, ids0: seq<string>) returns (ids: seq<string>)
    requires ids0 != []
    ensures ids != [] && ids[0] == ids0[0]
    ensures forall id :: id in ids <==> (id in ids0 || (id == WEB && (m.search || m.sources)) ||
      (id == EMAIL && m.email) || (id == COMPOSE && m.composer && TOPIC !in ids0))
  {
    ids := ids0;
    if m.search {
      ids := ids + [WEB];
    } else if m.sources {
      ids := ids + [WEB];
    }
    if m.email {
      ids := ids + [EMAIL];
    }
    if m.composer && TOPIC !in ids {
      ids := ids + [COMPOSE];
    }
  }

  method AddSchedules(m: Message, ids0: seq<string>) returns (ids: seq<string>)
    requires ids0 != []
    ensures ids != [] && ids[0] == ids0[0]
    ensures forall id :: id in ids <==> (id in ids0 || (id == RECURRING && m.recurringJob) ||
      (id == REMINDER && (m.reminder || m.confirmation)))
  {
    ids := ids0;
    if m.recurringJob && RECURRING !in ids {
      ids := InsertSecond(ids, RECURRING);
    }
    if m.reminder {
      ids := ids + [REMINDER];
    }
    if m.confirmation && REMINDER !in ids {
      ids := ids + [REMINDER];
    }
  }

  method FeedbackIds(m: Message) returns (ids: seq<string>)
    ensures ids != [] && ids[0] == DEFAULT
    ensures forall id :: id in ids <==> (id == DEFAULT || (id == EMAIL_FEEDBACK && m.email && (m.feedback || m.domainList)) ||
      (id == DIGEST_FEEDBACK && !m.email && m.feedback && (m.digestContext || m.preference)))
    ensures DIGEST_FEEDBACK in ids || EMAIL_FEEDBACK in ids <==> WantsFeedback(m)
  {
    ids := [DEFAULT];
    if m.feedback {
      if m.email {
        if EMAIL_FEEDBACK !in ids {
          ids := InsertSecond(ids, EMAIL_FEEDBACK);
        }
      } else if m.digestContext || m.preference {
        if DIGEST_FEEDBACK !in ids {
          ids := InsertSecond(ids, DIGEST_FEEDBACK);
        }
      }
    } else if m.domainList && m.email {
      if EMAIL_FEEDBACK !in ids {
        ids := InsertSecond(ids, EMAIL_FEEDBACK);
      }
    }
  }

  predicate HasFeedback(ids: set<string>) {
    DIGEST_FEEDBACK in ids || EMAIL_FEEDBACK in ids
  }

  /** The tool that must succeed first, given the selected skills. */
  function RequiredToolFromSkills(ids: set<string>, m: Message): string {
    if HasFeedback(ids) then ""
    else if COMPOSE in ids && EMAIL in ids then "read_email"
    else if EMAIL in ids then "read_email"
    else if NOTE in ids then "save_user_memory_note"
    else if RECURRING in ids && m.explicitRecurring then "schedule_recurring_agent_run"
    else if TOPIC in ids then "user_topic_telegram_digest"
    else if NEWS in ids then "digest_telegram_news"
    else ""
  }

  function Guarded(ids: set<string>, candidate: string, allowTools: bool): string {
    if !allowTools then ""
    else if HasFeedback(ids) then ""
    else Strip(candidate)
  }

  function DigestMemory(ids: set<string>): MemoryMode {
    if COMPOSE in ids && EMAIL in ids then LongTermOnly else Full
  }

  // ---------- Resolving ----------

  function PlanVerdict(c: Router, answer: Option<Plan>): Verdict {
    match answer
    case None => Rejected(Unreadable)
    case Some(plan) => Validated(plan, IdsOf(c.catalog), c.tools)
  }

  /** The plan decides unless it is unusable, or forbids tools for a message that needs them. */
  predicate PlanDecides(v: Verdict, m: Message) {
    v.Accepted? && (v.plan.allowTools || !m.toolLikely)
  }

  ghost function SelectedIds(v: Verdict, m: Message): set<string> {
    if PlanDecides(v, m) then SetOf(v.plan.skillIds) + {DEFAULT} else WantedIds(m)
  }

  /** A recurring request for the scheduling skill overrides the plan's own required tool. */
  ghost predicate Forced(v: Verdict, m: Message) {
    PlanDecides(v, m) && v.plan.allowTools && RECURRING in v.plan.skillIds && m.explicitRecurring
  }

  ghost predicate SelectsFeedback(ids: set<string>) {
    ids * {EMAIL_FEEDBACK, DIGEST_FEEDBACK} != {}
  }

  /** A digest of mail leaves the short-term memory out. */
  ghost function MemoryFor(ids: set<string>): MemoryMode {
    if {COMPOSE, EMAIL} <= ids then LongTermOnly else Full
  }

  lemma FeedbackMeaning(ids: set<string>)
    ensures HasFeedback(ids) <==> SelectsFeedback(ids)
    ensures DigestMemory(ids) == MemoryFor(ids)
  {
    var feedback := ids * {EMAIL_FEEDBACK, DIGEST_FEEDBACK};
    assert HasFeedback(ids) ==> EMAIL_FEEDBACK in feedback || DIGEST_FEEDBACK in feedback;
  }

  /** What the resolution is, whatever way it was reached. */
  ghost predicate IsResolution(c: Router, m: Message, answer: Option<Plan>, r: Resolution) {
    var v := PlanVerdict(c, answer);
    && (r.source.Llm? <==> v.Accepted?)
    && (r.allowTools <==> m.toolLikely || (v.Accepted? && v.plan.allowTools))
    && r.skills == Pick(c.catalog, SelectedIds(v, m), c.maxCount)
    && r.memoryMode == (if PlanDecides(v, m) then v.plan.memoryMode else MemoryFor(IdsOf(r.skills)))
    && r.requiredTool ==
       if !r.allowTools then ""
       else if Forced(v, m) then RECURRING
       else if PlanDecides(v, m) then (if SelectsFeedback(SelectedIds(v, m)) then "" else v.plan.requiredTool)
       else RequiredToolFromSkills(IdsOf(r.skills), m)
  }

  method BuildSkillsSelection(c: Router, m: Message) returns (skills: seq<Skill>)
    requires c.Valid()
    ensures skills == Pick(c.catalog, WantedIds(m), c.maxCount)
  {
    var ids := SelectRelevantSkillIds(m);
    skills := PickSkillItems(c.catalog, ids, c.maxCount);
    assert SetOf(ids) == WantedIds(m);
  }

  function IdList(skills: seq<Skill>): (ids: seq<string>)
    ensures |ids| == |skills| && forall i :: 0 <= i < |skills| ==> ids[i] == skills[i].skillId
  {
    seq(|skills|, i requires 0 <= i < |skills| => skills[i].skillId)
  }

  lemma IdListFacts(skills: seq<Skill>)
    ensures SetOf(IdList(skills)) == IdsOf(skills)
  {
    var ids := IdList(skills);
    forall id ensures id in ids <==> id in IdsOf(skills) {
      if id in ids {
        var i :| 0 <= i < |ids| && ids[i] == id;
        assert skills[i] in skills;
      }
      if id in IdsOf(skills) {
        var i :| 0 <= i < |skills| && skills[i].skillId == id;
        assert ids[i] == id;
      }
    }
  }

  lemma AllIdsAreTrimmed()
    ensures forall id :: id in ALL_IDS ==> id != "" && Strip(id) == id
  {
    forall id | id in ALL_IDS ensures id != "" && Strip(id) == id {
      assert id != "" && !IsSpace(id[0]) && !IsSpace(id[|id| - 1]);
      NothingToStrip(id);
    }
  }

  lemma NothingToStrip(s: string)
    requires s != "" && !IsSpace(s[0]) && !IsSpace(s[|s| - 1])
    ensures Strip(s) == s
  {
  }

  /** The skills the rules pick, picked again: with the default skill put first, as the resolver does
      once, or as they are. */
  lemma RepickedByRules(c: Router, m: Message, skills: seq<Skill>)
    requires skills == Pick(c.catalog, WantedIds(m), c.maxCount)
    ensures Pick(c.catalog, IdsOf(skills) + {DEFAULT}, c.maxCount) == skills
    ensures Pick(c.catalog, SetOf(IdList(skills)), c.maxCount) == skills
    ensures forall x :: x in IdList(skills) ==> x != "" && Strip(x) == x
  {
    SecondPickChangesNothing(c.catalog, WantedIds(m), c.maxCount);
    IdListFacts(skills);
    FilterKeeps(c.catalog, WantedIds(m));
    AllIdsAreTrimmed();
    forall x | x in IdList(skills) ensures x in ALL_IDS {
      assert x in SetOf(IdList(skills));
    }
  }

  method PickWithDefault(c: Router, m: Message, skills: seq<Skill>) returns (picked: seq<Skill>)
    requires c.Valid() && skills == Pick(c.catalog, WantedIds(m), c.maxCount)
    ensures picked == skills
  {
    var ids := PrependDefaultAssistant(IdList(skills));
    RepickedByRules(c, m, skills);
    PrependedIds(IdList(skills), ids);
    IdListFacts(skills);
    picked := PickSkillItems(c.catalog, ids, c.maxCount);
  }

  /** Tools are allowed, with the skills of the rules, when the plan forbids what the message needs. */
  method ApplyHeuristicOverride(c: Router, m: Message, plan: Plan) returns (p: Plan)
    requires c.Valid()
    ensures plan.allowTools || !m.toolLikely ==> p == plan
    ensures !plan.allowTools && m.toolLikely ==>
      var skills := Pick(c.catalog, WantedIds(m), c.maxCount);
      p == Plan(IdList(skills), true, RequiredToolFromSkills(IdsOf(skills), m), MemoryFor(IdsOf(skills)))
  {
    if plan.allowTools || !m.toolLikely {
      return plan;
    }
    var skills := BuildSkillsSelection(c, m);
    var adjusted := PickWithDefault(c, m, skills);
    var ids := IdsOf(adjusted);
    var required := RequiredToolFromSkills(ids, m);
    GuardKeepsRuleTool(ids, m);
    FeedbackMeaning(ids);
    p := Plan(IdList(adjusted), true, Guarded(ids, required, true), DigestMemory(ids));
  }

  lemma RuleToolIsTrimmed(ids: set<string>, m: Message)
    ensures Strip(RequiredToolFromSkills(ids, m)) == RequiredToolFromSkills(ids, m)
  {
    var tool := RequiredToolFromSkills(ids, m);
    if tool != "" {
      NothingToStrip(tool);
    }
  }

  lemma GuardKeepsRuleTool(ids: set<string>, m: Message)
    ensures Guarded(ids, RequiredToolFromSkills(ids, m), true) == RequiredToolFromSkills(ids, m)
  {
    RuleToolIsTrimmed(ids, m);
  }

  method BuildFallbackResolution(c: Router, m: Message, ghost answer: Option<Plan>) returns (r: Resolution)
    requires c.Valid() && PlanVerdict(c, answer).Rejected?
    ensures IsResolution(c, m, answer, r)
  {
    var skills := BuildSkillsSelection(c, m);
    var required := RequiredToolFromSkills(IdsOf(skills), m);
    if !m.toolLikely {
      required := "";
    }
    var adjusted := PickWithDefault(c, m, skills);
    FeedbackMeaning(IdsOf(skills));
    r := Resolution(adjusted, m.toolLikely, required, DigestMemory(IdsOf(skills)), Fallback);
  }

  method RequireByPlan(ids: set<string>, m: Message, plan: Plan) returns (required: string)
    ensures required == if RECURRING in ids && m.explicitRecurring then RECURRING
                        else if !plan.allowTools || SelectsFeedback(ids) then "" else Strip(plan.requiredTool)
  {
    FeedbackMeaning(ids);
    required := Guarded(ids, plan.requiredTool, plan.allowTools);
    var byRules := RequiredToolFromSkills(ids, m);
    var isForced := RECURRING in ids && m.explicitRecurring;
    if byRules == RECURRING || isForced {
      required := RECURRING;
    }
  }

  method ApplyPlan(c: Router, m: Message, plan: Plan, ghost answer: Option<Plan>) returns (r: Resolution)
    requires c.Valid() && PlanVerdict(c, answer) == Accepted(plan)
    ensures IsResolution(c, m, answer, r)
  {
    var ids := PrependDefaultAssistant(plan.skillIds);
    var required := RequireByPlan(SetOf(ids), m, plan);
    var applied := Plan(ids, plan.allowTools, required, plan.memoryMode);
    if !applied.allowTools {
      applied := applied.(requiredTool := "");
      applied := ApplyHeuristicOverride(c, m, applied);
    }
    var skills := PickSkillItems(c.catalog, applied.skillIds, c.maxCount);
    r := Resolution(skills, applied.allowTools, if applied.allowTools then Strip(applied.requiredTool) else "",
                    applied.memoryMode, Llm);
    if PlanDecides(Accepted(plan), m) {
      PlanGuides(c, m, plan, answer, ids, required, r);
    } else {
      RulesGuide(c, m, plan, answer, r);
    }
  }

  lemma PlanGuides(c: Router, m: Message, plan: Plan, answer: Option<Plan>, ids: seq<string>, required: string, r: Resolution)
    requires PlanVerdict(c, answer) == Accepted(plan) && PlanDecides(Accepted(plan), m)
    requires forall id :: id in ids <==> id == DEFAULT || (id != "" && exists x :: x in plan.skillIds && Strip(x) == id)
    requires required == if RECURRING in ids && m.explicitRecurring then RECURRING
                         else if !plan.allowTools || SelectsFeedback(SetOf(ids)) then "" else Strip(plan.requiredTool)
    requires r == Resolution(Pick(c.catalog, SetOf(ids), c.maxCount), plan.allowTools,
                             if plan.allowTools then Strip(required) else "", plan.memoryMode, Llm)
    ensures IsResolution(c, m, answer, r)
  {
    ValidationMeaning(answer.value, IdsOf(c.catalog), c.tools);
    PrependedIds(plan.skillIds, ids);
    assert Strip(plan.requiredTool) == plan.requiredTool by {
      StripIdempotent(answer.value.requiredTool);
    }
    PlannedTool(Accepted(plan), m, ids, required);
  }

  lemma PlannedTool(v: Verdict, m: Message, ids: seq<string>, required: string)
    requires PlanDecides(v, m) && SetOf(ids) == SelectedIds(v, m) && Strip(v.plan.requiredTool) == v.plan.requiredTool
    requires required == if RECURRING in ids && m.explicitRecurring then RECURRING
                         else if !v.plan.allowTools || SelectsFeedback(SetOf(ids)) then "" else v.plan.requiredTool
    ensures v.plan.allowTools ==>
      (Strip(required) ==
       if Forced(v, m) then RECURRING else if SelectsFeedback(SelectedIds(v, m)) then "" else v.plan.requiredTool)
  {
    NothingToStrip(RECURRING);
    assert RECURRING in SetOf(ids) <==> RECURRING in v.plan.skillIds;
  }

  lemma RulesGuide(c: Router, m: Message, plan: Plan, answer: Option<Plan>, r: Resolution)
    requires PlanVerdict(c, answer) == Accepted(plan) && !PlanDecides(Accepted(plan), m)
    requires var skills := Pick(c.catalog, WantedIds(m), c.maxCount);
      r == Resolution(Pick(c.catalog, SetOf(IdList(skills)), c.maxCount), true,
                      Strip(RequiredToolFromSkills(IdsOf(skills), m)), MemoryFor(IdsOf(skills)), Llm)
    ensures IsResolution(c, m, answer, r)
  {
    var skills := Pick(c.catalog, WantedIds(m), c.maxCount);
    RepickedByRules(c, m, skills);
    RuleToolIsTrimmed(IdsOf(skills), m);
  }

  /** The routing decision; answer is the model's plan where its reply could be read as one. */
  method Resolve(c: Router, m: Message, answer: Option<Plan>) returns (r: Resolution)
    requires c.Valid()
    ensures IsResolution(c, m, answer, r)
  {
    var verdict := Rejected(Unreadable);
    if answer.Some? {
      verdict := ValidateAgainstCatalog(answer.value, IdsOf(c.catalog), c.tools);
    }
    match verdict
    case Rejected(_) => r := BuildFallbackResolution(c, m, answer);
    case Accepted(plan) => r := ApplyPlan(c, m, plan, answer);
  }

  // ---------- What every resolution satisfies ----------

  /** The selected skills are distinct, in catalog order, within the maximum and among those asked for. */
  lemma SelectionIsNormal(c: Router, m: Message, answer: Option<Plan>, r: Resolution)
    requires c.Valid() && IsResolution(c, m, answer, r)
    ensures DistinctIds(r.skills) && IsSublist(r.skills, c.catalog) && |r.skills| <= c.maxCount
    ensures IdsOf(r.skills) <= SelectedIds(PlanVerdict(c, answer), m)
  {
    var ids := SelectedIds(PlanVerdict(c, answer), m);
    FilterDistinct(c.catalog, ids);
    FilterKeeps(c.catalog, ids);
    PickInOrder(c.catalog, ids, c.maxCount);
  }

  /** With a feedback skill selected no tool is required, unless the schedule tool is forced. */
  lemma FeedbackRequiresNothing(c: Router, m: Message, answer: Option<Plan>, r: Resolution)
    requires c.Valid() && IsResolution(c, m, answer, r) && SelectsFeedback(IdsOf(r.skills))
    ensures r.requiredTool == if Forced(PlanVerdict(c, answer), m) then RECURRING else ""
  {
    SelectionIsNormal(c, m, answer, r);
  }

  /** The tool that is required without a look into the registry: the forced schedule tool, or the tool that
      the rules derive from the skills they pick. */
  ghost function UncheckedTool(c: Router, m: Message, answer: Option<Plan>): string {
    var v := PlanVerdict(c, answer);
    if Forced(v, m) then RECURRING
    else if !PlanDecides(v, m) && m.toolLikely then
      RequiredToolFromSkills(IdsOf(Pick(c.catalog, WantedIds(m), c.maxCount)), m)
    else ""
  }

  /** The required tool is registered, or there is none, exactly unless the unchecked tool is missing. */
  lemma RequiredToolIsRegisteredIff(c: Router, m: Message, answer: Option<Plan>, r: Resolution)
    requires IsResolution(c, m, answer, r)
    ensures r.requiredTool == "" || r.requiredTool in c.tools <==>
      UncheckedTool(c, m, answer) == "" || UncheckedTool(c, m, answer) in c.tools
  {
    if PlanDecides(PlanVerdict(c, answer), m) {
      ValidationMeaning(answer.value, IdsOf(c.catalog), c.tools);
    }
  }

  /** The tools that the rules may require or routing may force. */
  const RULE_TOOLS: set<string> := {"read_email", "save_user_memory_note", RECURRING, TOPIC, "digest_telegram_news"}

  /** With this registry every resolution, of any catalog, message and plan, requires a registered tool or none. */
  ghost predicate IsSafeRegistry(tools: set<string>) {
    forall c: Router, m, answer, r :: c.Valid() && c.tools == tools && IsResolution(c, m, answer, r) ==>
      r.requiredTool == "" || r.requiredTool in tools
  }

  /** A catalog of one skill, a message that wants it, and an unreadable plan. */
  lemma RulesRequireTool(tools: set<string>, id: string, m: Message)
    requires IsSafeRegistry(tools) && id in ALL_IDS && Wants(m, id) && m.toolLikely
    ensures RequiredToolFromSkills({id}, m) == "" || RequiredToolFromSkills({id}, m) in tools
  {
    var c, skills := Router([Skill(id, "")], tools, 1), [Skill(id, "")];
    assert c.catalog[..0] == [] && Filter(c.catalog, WantedIds(m)) == skills;
    assert IdsOf(skills) == {id};
    var r := Resolution(skills, true, RequiredToolFromSkills({id}, m), MemoryFor({id}), Fallback);
    assert c.Valid() && IsResolution(c, m, None, r);
  }

  const NO_HINT := Message(false, false, false, false, false, false, false, false, false, false, false, false, false,
                           false, false, false, false, true)

  /** The registries with which no unregistered tool is ever required are exactly those with the five tools of
      the rules. */
  lemma SafeRegistryIff(tools: set<string>)
    ensures IsSafeRegistry(tools) <==> RULE_TOOLS <= tools
  {
    if IsSafeRegistry(tools) {
      RulesRequireTool(tools, EMAIL, NO_HINT.(email := true));
      RulesRequireTool(tools, NOTE, NO_HINT.(note := true));
      RulesRequireTool(tools, RECURRING, NO_HINT.(recurringJob := true, explicitRecurring := true));
      RulesRequireTool(tools, TOPIC, NO_HINT.(topic := true));
      RulesRequireTool(tools, NEWS, NO_HINT.(news := true));
    }
    if RULE_TOOLS <= tools {
      forall c: Router, m, answer, r | c.Valid() && c.tools == tools && IsResolution(c, m, answer, r)
        ensures r.requiredTool == "" || r.requiredTool in tools
      {
        RequiredToolIsRegisteredIff(c, m, answer, r);
      }
    }
  }

  /** The tools that the program registers. */
  const PROGRAM_TOOLS: set<string> :=
    {"digest_telegram_news", TOPIC, "save_digest_preference", "save_email_preference", "save_user_memory_note",
     "read_memory_file", "read_email", REMINDER, RECURRING, "list_reminders", "delete_reminder", "web_search"}

  /** So the program never requires a tool that it has not registered. */
  lemma ProgramRegistryIsSafe()
    ensures IsSafeRegistry(PROGRAM_TOOLS)
  {
    SafeRegistryIff(PROGRAM_TOOLS);
  }

  /** Which tool the rules require: none with a feedback skill, otherwise that of the first of the mail, note,
      schedule, topic and news skills that is selected, the schedule skill only for a recurring request. */
  lemma RulesRequireIff(ids: set<string>, m: Message)
    ensures var tool := RequiredToolFromSkills(ids, m);
      var isFree, isRecurring := !SelectsFeedback(ids), RECURRING in ids && m.explicitRecurring;
      && (tool == "read_email" <==> isFree && EMAIL in ids)
      && (tool == "save_user_memory_note" <==> isFree && EMAIL !in ids && NOTE in ids)
      && (tool == RECURRING <==> isFree && EMAIL !in ids && NOTE !in ids && isRecurring)
      && (tool == TOPIC <==> isFree && EMAIL !in ids && NOTE !in ids && !isRecurring && TOPIC in ids)
      && (tool == "digest_telegram_news" <==>
            isFree && EMAIL !in ids && NOTE !in ids && !isRecurring && TOPIC !in ids && NEWS in ids)
      && (tool == "" <==>
            SelectsFeedback(ids) || (EMAIL !in ids && NOTE !in ids && !isRecurring && TOPIC !in ids && NEWS !in ids))
  {
    FeedbackMeaning(ids);
  }

  /** The forced tool outlives the skill that called for it exactly when that skill is cut off: when the
      selected skills before it in the catalog already fill the maximum. */
  lemma ForcedToolKeepsItsSkillIff(c: Router, m: Message, answer: Option<Plan>, r: Resolution, i: nat)
    requires c.Valid() && IsResolution(c, m, answer, r) && Forced(PlanVerdict(c, answer), m)
    requires i < |c.catalog| && c.catalog[i].skillId == RECURRING
    ensures r.requiredTool == RECURRING
    ensures RECURRING in IdsOf(r.skills) <==>
      |Filter(c.catalog[..i], SelectedIds(PlanVerdict(c, answer), m))| < c.maxCount
  {
    var ids := SelectedIds(PlanVerdict(c, answer), m);
    PickedIff(c.catalog, i, ids, c.maxCount);
    FilterKeeps(c.catalog, ids);
    if RECURRING in IdsOf(r.skills) {
      var s :| s in r.skills && s.skillId == RECURRING;
      assert s in c.catalog;
      assert s == c.catalog[i];
    }
  }

  /** The skills that come with the program, in the order of their files. */
  const PROGRAM_CATALOG: seq<Skill> :=
    [Skill(COMPOSE, ""), Skill(DEFAULT, ""), Skill(EMAIL_FEEDBACK, ""), Skill(EMAIL, ""), Skill(NOTE, ""),
     Skill(RECURRING, ""), Skill(REMINDER, ""), Skill(DIGEST_FEEDBACK, ""), Skill(NEWS, ""), Skill(TOPIC, ""),
     Skill(WEB, "")]

  /** The program's skills and tools with the largest number of selected skills that the settings allow. */
  const PROGRAM := Router(PROGRAM_CATALOG, PROGRAM_TOOLS, 4)

  const BUSY_PLAN := Plan([COMPOSE, EMAIL, NOTE, RECURRING], true, "", Full)

  /** A plan with the schedule skill and no tool of its own, for a recurring request. */
  lemma PlanIsForced(c: Router, m: Message, plan: Plan)
    requires m.explicitRecurring && plan.allowTools && plan.requiredTool == ""
    requires RECURRING in plan.skillIds && RECURRING in IdsOf(c.catalog)
    ensures Forced(PlanVerdict(c, Some(plan)), m)
    ensures DEFAULT in SelectedIds(PlanVerdict(c, Some(plan)), m)
    ensures forall id :: id in plan.skillIds && id in ALL_IDS && id in IdsOf(c.catalog) ==>
      id in SelectedIds(PlanVerdict(c, Some(plan)), m)
  {
    AllIdsAreTrimmed();
    AcceptedKeeps(plan, IdsOf(c.catalog), c.tools);
    assert RECURRING in Validated(plan, IdsOf(c.catalog), c.tools).plan.skillIds;
  }

  lemma AcceptedKeeps(plan: Plan, known: set<string>, tools: set<string>)
    requires plan.requiredTool == "" && exists id :: id in plan.skillIds && id != "" && Strip(id) == id && id in known
    ensures var v := Validated(plan, known, tools);
      && v.Accepted? && v.plan.allowTools == plan.allowTools
      && forall id :: id in plan.skillIds && id != "" && Strip(id) == id && id in known ==> id in v.plan.skillIds
  {
    assert Strip("") == "";
    ValidationMeaning(plan, known, tools);
  }

  lemma InCatalog(catalog: seq<Skill>, i: nat)
    requires i < |catalog|
    ensures catalog[i].skillId in IdsOf(catalog)
  {
    assert catalog[i] in catalog;
  }

  lemma BusyPlanForces(c: Router, m: Message, plan: Plan)
    requires m.explicitRecurring && plan == BUSY_PLAN && c.catalog == PROGRAM_CATALOG
    ensures Forced(PlanVerdict(c, Some(plan)), m)
    ensures SelectsFour(SelectedIds(PlanVerdict(c, Some(plan)), m))
  {
    var ids := plan.skillIds;
    assert ids[0] in ids && ids[1] in ids && ids[2] in ids && ids[3] in ids;
    InCatalog(c.catalog, 0);
    InCatalog(c.catalog, 3);
    InCatalog(c.catalog, 4);
    InCatalog(c.catalog, 5);
    PlanIsForced(c, m, plan);
  }

  ghost predicate SelectsFour(ids: set<string>) {
    COMPOSE in ids && DEFAULT in ids && EMAIL in ids && NOTE in ids
  }

  lemma FourBeforeRecurring(ids: set<string>)
    requires SelectsFour(ids)
    ensures |Filter(PROGRAM_CATALOG[..5], ids)| >= 4
  {
    FilterSnoc(PROGRAM_CATALOG, 0, ids);
    FilterSnoc(PROGRAM_CATALOG, 1, ids);
    FilterSnoc(PROGRAM_CATALOG, 2, ids);
    FilterSnoc(PROGRAM_CATALOG, 3, ids);
    FilterSnoc(PROGRAM_CATALOG, 4, ids);
  }

  lemma ProgramFacts(c: Router)
    requires c == PROGRAM
    ensures c.Valid() && RECURRING in c.tools && c.maxCount == 4
    ensures |c.catalog| > 5 && c.catalog[5].skillId == RECURRING
  {
  }

  /** With the program's own skills and tools a recurring request for mail, a note and a digest requires the
      schedule tool first, while the skill that explains it is cut off. */
  lemma ForcedToolOutlivesSkill(m: Message) returns (c: Router, plan: Plan)
    requires m.explicitRecurring
    ensures c == PROGRAM && c.Valid() && RECURRING in c.tools
    ensures forall r :: IsResolution(c, m, Some(plan), r) ==> r.requiredTool == RECURRING && RECURRING !in IdsOf(r.skills)
  {
    c, plan := PROGRAM, BUSY_PLAN;
    ProgramFacts(c);
    BusyPlanForces(c, m, plan);
    FourBeforeRecurring(SelectedIds(PlanVerdict(c, Some(plan)), m));
    forall r | IsResolution(c, m, Some(plan), r) ensures r.requiredTool == RECURRING && RECURRING !in IdsOf(r.skills) {
      CutOff(c, m, Some(plan), r, 5);
    }
  }

  lemma CutOff(c: Router, m: Message, answer: Option<Plan>, r: Resolution, i: nat)
    requires c.Valid() && i < |c.catalog| && c.catalog[i].skillId == RECURRING
    ensures (IsResolution(c, m, answer, r) && Forced(PlanVerdict(c, answer), m) &&
             |Filter(c.catalog[..i], SelectedIds(PlanVerdict(c, answer), m))| >= c.maxCount) ==>
            r.requiredTool == RECURRING && RECURRING !in IdsOf(r.skills)
  {
    if IsResolution(c, m, answer, r) && Forced(PlanVerdict(c, answer), m) {
      ForcedToolKeepsItsSkillIff(c, m, answer, r, i);
    }
  }

  /** A run routed with tools disallowed has no required tool, so it ends with its first readable final
      answer, whatever the message, the routing model and the model of the run say. */
  lemma RoutedWithoutTools(c: Router, m: Message, answer: Option<Plan>, r: Resolution,
                           e: AgentHistory.Env, n: nat, reason: AgentHistory.Reason, i: nat)
    requires IsResolution(c, m, answer, r) && !r.allowTools
    requires e.allowTools == r.allowTools && e.required == r.requiredTool
    requires AgentHistory.EndsAt(e, n, reason)
    requires i < n && AgentHistory.Said(e, i).Valid? && AgentHistory.Said(e, i).output.FinalOut?
    ensures i == n - 1 && reason == AgentHistory.FinalAnswer
  {
    AgentSafety.FirstFinalAccepted(e, n, reason, i);
  }
}
