/**
 * Resolution of Rules and Skills for one Task Session, and the check a stored resolution must pass later
 * (src-tauri/src/domain/governance.rs).
 *
 * Digests, the JSON encoding of the catalog and the matching of contract text are parameters.
 */
module Governance {
  import opened Prelude
  import opened Sorting
  import opened Text
  import opened GovernanceRules

  const SCHEMA_VERSION: nat := 1
  const RULES_NORMALIZATION: string := "agent-rules-lines-v1"
  const MAX_SELECTED_SKILLS: nat := 16
  const MAX_SELECTED_SKILL_BYTES: nat := 32 * 1024
  const MAX_CATALOG: nat := 64

  // The source keeps both as text and compares it with the names it knows.
  datatype Trigger = OnAutomatic | OnContext | OnRequest | Off | UnknownTrigger(text: string)
  datatype Subject =
    | Diagnostics | Deployment | Infrastructure | Git | Coding | Testing | Security | Database | Documentation
  datatype Category = BuiltIn(subject: Subject) | Custom | UnknownCategory(name: string)

  datatype Skill = Skill(id: string, name: string, description: string, category: Category, customCategory: string,
                         trigger: Trigger, priority: nat, enabled: bool, instructions: string, updatedAt: string)

  datatype Profile = Profile(schemaVersion: nat, agentRules: string, agentSkills: string, rulesRevision: string,
                             templateVersion: string, catalog: seq<Skill>, skillsRevision: string)

  // A field of the contract: absent, present but no text, or text.
  datatype Field = Absent | NotText | Words(text: string)

  /** What the contract says, as far as resolution asks; `terms` are the built-in categories its text matched. */
  datatype Contract = Contract(requested: set<string>, terms: map<Subject, seq<string>>,
                               legacyIds: seq<string>, rulesSnapshot: Field, skillsSnapshot: Field)

  /** `mentions` says whether the contract's text includes a normalized term. */
  datatype Functions = Functions(digest: string -> string, encode: seq<Skill> -> string,
                                 normalize: string -> string, mentions: (Contract, string) -> bool)

  datatype Failure =
    | SchemaUnsupported | LegacySnapshotSubmitted | RulesTooLong | RulesRevisionMismatch | CatalogInvalid
    | CatalogRevisionMismatch | UnsupportedTrigger | TooManySkills | PromptTooLong | ClockFailed

  // ---------------------------------------------------------------- records

  datatype Status = Authoritative | LegacyUnavailable

  datatype Reason =
    | Disabled | Automatic | Requested | NotRequested | MatchedCustom(term: string) | MatchedCategory | NotMatched

  datatype SkillEntry = SkillEntry(skillId: string, selected: bool, trigger: Trigger, domains: seq<string>,
                                   intents: seq<string>,
                                   priority: nat, reason: Reason, order: Option<nat>)

  datatype SkillRecord = SkillRecord(revision: Option<string>, selectedIds: seq<string>, entries: seq<SkillEntry>,
                                     snapshot: string)

  datatype RuleEntry = RuleEntry(ruleId: string, source: string, revision: string, precedence: nat, digest: string)

  datatype RulesRecord = RulesRecord(normalization: string, finalDigest: string, entries: seq<RuleEntry>,
                                     snapshot: string)

  datatype Resolution = Resolution(schemaVersion: nat, session: nat, resolvedAt: nat, status: Status,
                                   rules: RulesRecord, skills: SkillRecord)

  // ---------------------------------------------------------------- the catalog

  predicate SkillOk(s: Skill) {
    && Trim(s.id) != "" && Trim(s.name) != "" && Trim(s.description) != "" && Trim(s.instructions) != ""
    && Bytes(s.instructions) <= 8 * 1024 && s.priority <= 100 && Trim(s.updatedAt) != ""
    && !s.trigger.UnknownTrigger? && !s.category.UnknownCategory?
    && (s.category.Custom? ==> Trim(s.customCategory) != "")
  }

  predicate FreshId(catalog: seq<Skill>, i: nat)
    requires i < |catalog|
  {
    forall k :: 0 <= k < i ==> catalog[k].id != catalog[i].id
  }

  /** The first `n` skills are well-formed and have ids of their own. */
  predicate ValidTo(catalog: seq<Skill>, n: nat)
    requires n <= |catalog|
  {
    forall i :: 0 <= i < n ==> SkillOk(catalog[i]) && FreshId(catalog, i)
  }

  predicate ValidCatalog(catalog: seq<Skill>) { |catalog| <= MAX_CATALOG && ValidTo(catalog, |catalog|) }

  method ValidateCatalog(catalog: seq<Skill>) returns (ok: bool)
    ensures ok <==> ValidCatalog(catalog)
  {
    if |catalog| > MAX_CATALOG {
      return false;
    }
    var ids: set<string> := {};
    for i := 0 to |catalog|
      invariant ValidTo(catalog, i) && ids == IdsBefore(catalog, i)
    {
      FreshIff(catalog, i);
      if catalog[i].id in ids || !SkillOk(catalog[i]) {
        NotValid(catalog, i);
        return false;
      }
      ids := ids + {catalog[i].id};
    }
    return true;
  }

  function IdsBefore(catalog: seq<Skill>, n: nat): set<string>
    requires n <= |catalog|
  {
    set k | 0 <= k < n :: catalog[k].id
  }

  lemma FreshIff(catalog: seq<Skill>, i: nat)
    requires i < |catalog|
    ensures FreshId(catalog, i) <==> catalog[i].id !in IdsBefore(catalog, i)
    ensures IdsBefore(catalog, i + 1) == IdsBefore(catalog, i) + {catalog[i].id}
  {
  }

  lemma NotValid(catalog: seq<Skill>, i: nat)
    requires i < |catalog| && !(SkillOk(catalog[i]) && FreshId(catalog, i))
    ensures !ValidCatalog(catalog)
  {
  }

  predicate FreshIds(catalog: seq<Skill>) { forall i :: 0 <= i < |catalog| ==> FreshId(catalog, i) }

  lemma ValidIs(catalog: seq<Skill>)
    requires ValidCatalog(catalog)
    ensures KnownTriggers(catalog) && FreshIds(catalog)
  {
    forall i | 0 <= i < |catalog| ensures !catalog[i].trigger.UnknownTrigger? { assert SkillOk(catalog[i]); }
  }

  // ---------------------------------------------------------------- deciding and ordering

  datatype Decision = Decision(index: nat, skill: Skill, selected: bool, manual: bool, domains: seq<string>,
                               intents: seq<string>, reason: Reason)

  function Passed(i: nat, s: Skill, reason: Reason): Decision { Decision(i, s, false, false, [], [], reason) }

  function SubjectName(subject: Subject): string {
    match subject
    case Diagnostics => "diagnostics"
    case Deployment => "deployment"
    case Infrastructure => "infrastructure"
    case Git => "git"
    case Coding => "coding"
    case Testing => "testing"
    case Security => "security"
    case Database => "database"
    case Documentation => "documentation"
  }

  function Contextual(i: nat, s: Skill, c: Contract, f: Functions): Decision {
    if s.category.Custom? then
      var term := f.normalize(s.customCategory);
      if term != "" && f.mentions(c, term)
      then Decision(i, s, true, false, [Trim(s.customCategory)], [term], MatchedCustom(term))
      else Passed(i, s, NotMatched)
    else if s.category.BuiltIn? && s.category.subject in c.terms
    then Decision(i, s, true, false, [SubjectName(s.category.subject)], c.terms[s.category.subject], MatchedCategory)
    else Passed(i, s, NotMatched)
  }

  function Decide(i: nat, s: Skill, c: Contract, f: Functions): Result<Decision, Failure> {
    if !s.enabled || s.trigger.Off? then Ok(Passed(i, s, Disabled))
    else if s.trigger.OnAutomatic? then Ok(Decision(i, s, true, false, [], [], Automatic))
    else if s.trigger.OnRequest? then
      if s.id in c.requested then Ok(Decision(i, s, true, true, [], [], Requested)) else Ok(Passed(i, s, NotRequested))
    else if s.trigger.OnContext? then Ok(Contextual(i, s, c, f))
    else Err(UnsupportedTrigger)
  }

  predicate KnownTriggers(catalog: seq<Skill>) {
    forall i :: 0 <= i < |catalog| ==> !catalog[i].trigger.UnknownTrigger?
  }

  function DecisionOn(catalog: seq<Skill>, i: nat, c: Contract, f: Functions): Decision
    requires i < |catalog| && KnownTriggers(catalog)
  {
    Decide(i, catalog[i], c, f).value
  }

  function Decisions(catalog: seq<Skill>, c: Contract, f: Functions): seq<Decision>
    requires KnownTriggers(catalog)
  {
    seq(|catalog|, i requires 0 <= i < |catalog| => DecisionOn(catalog, i, c, f))
  }

  /** Requested ones first, then by falling priority, then in catalog order. */
  predicate Before(a: Decision, b: Decision) {
    if a.manual != b.manual then a.manual
    else if a.skill.priority != b.skill.priority then a.skill.priority > b.skill.priority
    else a.index <= b.index
  }

  predicate IsSelected(d: Decision) { d.selected }

  function Ranked(decisions: seq<Decision>): seq<Decision> { SortBy(Filter(decisions, IsSelected), Before) }

  // ---------------------------------------------------------------- the prompt

  function DisplayCategory(s: Skill): string {
    match s.category
    case Custom => Trim(s.customCategory)
    case BuiltIn(subject) => SubjectName(subject)
    case UnknownCategory(name) => name
  }

  function Section(s: Skill): string {
    "Skill: " + Trim(s.name) + "\nSkill ID: " + s.id + "\nCategory: " + DisplayCategory(s)
    + "\nDescription: " + Trim(s.description) + "\nInstructions:\n" + Trim(s.instructions)
  }

  function Sections(ranked: seq<Decision>, section: Skill -> string): seq<string> {
    seq(|ranked|, k requires 0 <= k < |ranked| => section(ranked[k].skill))
  }

  function JoinSections(sections: seq<string>): string {
    if sections == [] then ""
    else if |sections| == 1 then sections[0]
    else JoinSections(sections[..|sections| - 1]) + "\n\n" + sections[|sections| - 1]
  }

  lemma JoinOneMore(sections: seq<string>, section: string)
    ensures Bytes(JoinSections(sections + [section]))
         == Bytes(JoinSections(sections)) + (if sections == [] then 0 else 2) + Bytes(section)
  {
    var all := sections + [section];
    assert all[..|all| - 1] == sections;
    if sections != [] {
      BytesConcat(JoinSections(sections), "\n\n");
      BytesConcat(JoinSections(sections) + "\n\n", section);
      assert Bytes("\n\n") == 2 by { assert "\n\n"[1..] == "\n" && "\n"[1..] == ""; }
    }
  }

  lemma {:induction false} PrefixShorter(sections: seq<string>, k: nat)
    requires k <= |sections|
    ensures Bytes(JoinSections(sections[..k])) <= Bytes(JoinSections(sections))
    decreases |sections|
  {
    if k < |sections| {
      var front := sections[..|sections| - 1];
      JoinOneMore(front, sections[|sections| - 1]);
      assert front + [sections[|sections| - 1]] == sections;
      PrefixShorter(front, k);
      assert front[..k] == sections[..k];
    } else {
      assert sections[..k] == sections;
    }
  }

  // ---------------------------------------------------------------- resolving skills

  /** The last position of `id`, which a table keyed by id would answer. */
  function OrderOf(ids: seq<string>, id: string): Option<nat> {
    if ids == [] then None
    else if ids[|ids| - 1] == id then Some(|ids| - 1)
    else OrderOf(ids[..|ids| - 1], id)
  }

  function IdsOf(ranked: seq<Decision>): seq<string> {
    seq(|ranked|, k requires 0 <= k < |ranked| => ranked[k].skill.id)
  }

  function EntryOf(d: Decision, ids: seq<string>): SkillEntry {
    SkillEntry(d.skill.id, d.selected, d.skill.trigger, d.domains, d.intents, d.skill.priority, d.reason,
               OrderOf(ids, d.skill.id))
  }

  function EntriesOf(decisions: seq<Decision>, ids: seq<string>): seq<SkillEntry> {
    seq(|decisions|, i requires 0 <= i < |decisions| => EntryOf(decisions[i], ids))
  }

  /** What resolving the skills comes to: the reference the loops below are held to. */
  function ResolvedSkills(p: Profile, c: Contract, f: Functions): Result<SkillRecord, Failure> {
    if !ValidCatalog(p.catalog) then Err(CatalogInvalid)
    else if f.digest(f.encode(p.catalog)) != p.skillsRevision then Err(CatalogRevisionMismatch)
    else
      ValidIs(p.catalog);
      var decisions := Decisions(p.catalog, c, f);
      var ranked := Ranked(decisions);
      var snapshot := JoinSections(Sections(ranked, Section));
      if |ranked| > MAX_SELECTED_SKILLS then Err(TooManySkills)
      else if Bytes(snapshot) > MAX_SELECTED_SKILL_BYTES then Err(PromptTooLong)
      else Ok(SkillRecord(Some(p.skillsRevision), IdsOf(ranked), EntriesOf(decisions, IdsOf(ranked)), snapshot))
  }

  method ResolveSkills(p: Profile, c: Contract, f: Functions) returns (r: Result<SkillRecord, Failure>)
    ensures r == ResolvedSkills(p, c, f)
  {
    var valid := ValidateCatalog(p.catalog);
    if !valid {
      return Err(CatalogInvalid);
    }
    var revision := f.digest(f.encode(p.catalog));
    if revision != p.skillsRevision {
      return Err(CatalogRevisionMismatch);
    }
    ValidIs(p.catalog);
    var decisions := DecideAll(p.catalog, c, f);
    var ranked := SortBy(Filter(decisions, IsSelected), Before);
    if |ranked| > MAX_SELECTED_SKILLS {
      return Err(TooManySkills);
    }
    var assembled := AssemblePrompt(ranked, Section);
    if assembled.None? {
      return Err(PromptTooLong);
    }
    var Assembled(sections, ids, orders) := assembled.value;
    var entries := Record(decisions, ids, orders);
    return Ok(SkillRecord(Some(revision), ids, entries, JoinSections(sections)));
  }

  /** The error of an unknown trigger cannot happen here: the catalog has been checked. */
  method DecideAll(catalog: seq<Skill>, c: Contract, f: Functions) returns (decisions: seq<Decision>)
    requires KnownTriggers(catalog)
    ensures decisions == Decisions(catalog, c, f)
  {
    decisions := [];
    for i := 0 to |catalog|
      invariant |decisions| == i && forall k :: 0 <= k < i ==> decisions[k] == DecisionOn(catalog, k, c, f)
    {
      decisions := decisions + [DecisionOn(catalog, i, c, f)];
    }
  }

  method Record(decisions: seq<Decision>, ids: seq<string>, orders: map<string, nat>) returns (entries: seq<SkillEntry>)
    requires OrdersAre(orders, ids)
    ensures entries == EntriesOf(decisions, ids)
  {
    entries := [];
    for i := 0 to |decisions|
      invariant |entries| == i && forall k :: 0 <= k < i ==> entries[k] == EntryOf(decisions[k], ids)
    {
      var d := decisions[i];
      var order := if d.skill.id in orders then Some(orders[d.skill.id]) else None;
      entries := entries +
          [SkillEntry(d.skill.id, d.selected, d.skill.trigger, d.domains, d.intents, d.skill.priority, d.reason,
                      order)];
    }
  }

  ghost predicate OrdersAre(orders: map<string, nat>, ids: seq<string>) {
    forall id :: (if id in orders then Some(orders[id]) else None) == OrderOf(ids, id)
  }

  datatype Assembly = Assembled(sections: seq<string>, ids: seq<string>, orders: map<string, nat>)

  /** `bytes` is the exact length of the sections joined so far, so the limit is never passed, not even once. */
  method AssemblePrompt(ranked: seq<Decision>, section: Skill -> string) returns (r: Option<Assembly>)
    ensures r.None? <==> Bytes(JoinSections(Sections(ranked, section))) > MAX_SELECTED_SKILL_BYTES
    ensures r.Some? ==>
      r.value.sections == Sections(ranked, section) && r.value.ids == IdsOf(ranked) &&
        OrdersAre(r.value.orders, IdsOf(ranked))
  {
    var sections: seq<string>, ids: seq<string>, orders: map<string, nat>, bytes: nat := [], [], map[], 0;
    for k := 0 to |ranked|
      invariant sections == Sections(ranked, section)[..k] && ids == IdsOf(ranked)[..k] && OrdersAre(orders, ids)
      invariant bytes == Bytes(JoinSections(sections)) <= MAX_SELECTED_SKILL_BYTES
    {
      var text := section(ranked[k].skill);
      var separator := if sections == [] then 0 else 2;
      assert sections + [text] == Sections(ranked, section)[..k + 1];
      JoinOneMore(sections, text);
      if bytes + separator + Bytes(text) > MAX_SELECTED_SKILL_BYTES {
        PrefixShorter(Sections(ranked, section), k + 1);
        return None;
      }
      bytes := bytes + separator + Bytes(text);
      sections := sections + [text];
      ids := ids + [ranked[k].skill.id];
      orders := orders[ranked[k].skill.id := k];
      assert ids == IdsOf(ranked)[..k + 1];
    }
    assert Sections(ranked, section)[..|ranked|] == Sections(ranked, section) &&
        IdsOf(ranked)[..|ranked|] == IdsOf(ranked);
    return Some(Assembled(sections, ids, orders));
  }

  // ---------------------------------------------------------------- resolving everything

  function ResolvedRules(p: Profile, f: Functions): Result<RulesRecord, Failure> {
    match NormalizeRules(p.agentRules)
    case Err(_) => Err(Failure.RulesTooLong)
    case Ok(snapshot) =>
      if f.digest(snapshot) != p.rulesRevision then Err(RulesRevisionMismatch)
      else
        var platform := RuleEntry("platform.agent_worker.system", "runtime.ai_worker", p.templateVersion, 0,
                                  f.digest("platform-agent-worker:" + p.templateVersion));
        var global := RuleEntry("global.agent_rules", "settings.ai_worker.agent_rules", p.rulesRevision, 1_000,
                                f.digest(snapshot));
        Ok(RulesRecord(RULES_NORMALIZATION, f.digest(snapshot), if snapshot == "" then [platform]
                                                                else [platform, global], snapshot))
  }

  function TextOr(field: Field, fallback: string): string { if field.Words? then field.text else fallback }

  function LegacyResolution(session: nat, p: Profile, c: Contract, f: Functions, now: Option<nat>): Resolution {
    var rules := TextOr(c.rulesSnapshot, p.agentRules);
    Resolution(SCHEMA_VERSION, session, if now.Some? then now.value else 0, LegacyUnavailable,
               RulesRecord("legacy_unavailable", f.digest(rules), [], rules),
               SkillRecord(None, c.legacyIds, [], TextOr(c.skillsSnapshot, p.agentSkills)))
  }

  /** Every reason an authoritative resolution has to fail. */
  predicate MustFail(p: Profile, c: Contract, f: Functions, now: Option<nat>) {
    || p.schemaVersion != SCHEMA_VERSION || !c.skillsSnapshot.Absent? || !c.rulesSnapshot.Absent?
    || ResolvedRules(p, f).Err? || ResolvedSkills(p, c, f).Err? || now.None?
  }

  method ResolveGovernance(session: nat, p: Profile, c: Contract, f: Functions, now: Option<nat>)
    returns (r: Result<Resolution, Failure>)
    ensures r.Ok? ==> Validate(r.value, session, f).Ok?
    ensures r.Ok? ==> r.value.status == if p.schemaVersion == 0 then LegacyUnavailable else Authoritative
    ensures r.Ok? && p.schemaVersion != 0 ==>
      && c.skillsSnapshot.Absent? && c.rulesSnapshot.Absent?
      && ResolvedRules(p, f) == Ok(r.value.rules) && ResolvedSkills(p, c, f) == Ok(r.value.skills)
    ensures r.Ok? && now.Some? ==> r.value.resolvedAt == now.value
    ensures p.schemaVersion == 0 ==> r == Ok(LegacyResolution(session, p, c, f, now))
    ensures r.Err? <==> p.schemaVersion != 0 && MustFail(p, c, f, now)
  {
    if p.schemaVersion == 0 {
      return Ok(LegacyResolution(session, p, c, f, now));
    }
    if p.schemaVersion != SCHEMA_VERSION {
      return Err(SchemaUnsupported);
    }
    if !c.skillsSnapshot.Absent? || !c.rulesSnapshot.Absent? {
      return Err(LegacySnapshotSubmitted);
    }
    var rules := ResolvedRules(p, f);
    if rules.Err? {
      return Err(rules.error);
    }
    var skills := ResolveSkills(p, c, f);
    if skills.Err? {
      return Err(skills.error);
    }
    if now.None? {
      return Err(ClockFailed);
    }
    ResolvedConsistent(p, c, f);
    return Ok(Resolution(SCHEMA_VERSION, session, now.value, Authoritative, rules.value, skills.value));
  }

  // ---------------------------------------------------------------- the later check

  datatype Complaint = WrongSession | WrongSchema | WrongDigest | WrongNormalization | WrongOrder

  predicate EntrySelected(e: SkillEntry) { e.selected }

  /** No order sorts before every order. */
  predicate ByOrder(a: SkillEntry, b: SkillEntry) { a.order.None? || (b.order.Some? && a.order.value <= b.order.value) }

  function SelectedEntries(s: SkillRecord): seq<SkillEntry> { SortBy(Filter(s.entries, EntrySelected), ByOrder) }

  predicate OrderConsistent(s: SkillRecord) {
    var selected := SelectedEntries(s);
    && |selected| == |s.selectedIds|
    && forall k :: 0 <= k < |selected| ==> selected[k].order == Some(k) && s.selectedIds[k] == selected[k].skillId
  }

  function Validate(r: Resolution, session: nat, f: Functions): Result<(), Complaint> {
    if r.session != session then Err(WrongSession)
    else if r.schemaVersion != SCHEMA_VERSION then Err(WrongSchema)
    else if r.rules.finalDigest != f.digest(r.rules.snapshot) then Err(WrongDigest)
    else if r.status.Authoritative? && r.rules.normalization != RULES_NORMALIZATION then Err(WrongNormalization)
    else if r.status.Authoritative? && !OrderConsistent(r.skills) then Err(WrongOrder)
    else Ok(())
  }

  // ---------------------------------------------------------------- what the resolver returns passes the check

  lemma BeforeOrders()
    ensures TotalPreorder(Before) && TotalPreorder(ByOrder)
  {
  }

  /** Decisions of one catalog, each on a skill of its own. */
  ghost predicate OwnSkills(ds: seq<Decision>) {
    forall i, j :: 0 <= i < |ds| && 0 <= j < |ds| && i != j ==>
        ds[i].index != ds[j].index && ds[i].skill.id != ds[j].skill.id
  }

  lemma DecisionIs(catalog: seq<Skill>, i: nat, c: Contract, f: Functions)
    requires i < |catalog| && KnownTriggers(catalog)
    ensures var d := DecisionOn(catalog, i, c, f);
      d.index == i && d.skill == catalog[i] && (d.selected <==> CalledFor(catalog[i], c, f)) &&
          (d.manual ==> Wanted(catalog[i], c))
      && (d.selected && Wanted(catalog[i], c) ==> d.manual)
  {
  }

  lemma DecisionsOwnSkills(catalog: seq<Skill>, c: Contract, f: Functions)
    requires KnownTriggers(catalog) && FreshIds(catalog)
    ensures OwnSkills(Decisions(catalog, c, f))
  {
    var ds := Decisions(catalog, c, f);
    forall i, j | 0 <= i < |ds| && 0 <= j < |ds| && i != j
      ensures ds[i].index != ds[j].index && ds[i].skill.id != ds[j].skill.id
    {
      DecisionIs(catalog, i, c, f);
      DecisionIs(catalog, j, c, f);
      assert FreshId(catalog, i) && FreshId(catalog, j);
    }
  }

  lemma {:induction false} FilterDistinct<T(!new)>(s: seq<T>, keep: T -> bool)
    requires Distinct(s)
    ensures Distinct(Filter(s, keep))
  {
    if s != [] {
      assert s == [s[0]] + s[1..];
      assert s[0] !in s[1..];
      FilterDistinct(s[1..], keep);
      FilterMembers(s[1..], keep);
      var rest := Filter(s[1..], keep);
      forall k | 0 <= k < |rest| ensures rest[k] != s[0] { assert rest[k] in rest; }
    }
  }

  /** The ranking holds exactly the selected decisions, each once, in strict order. */
  lemma RankedIs(ds: seq<Decision>)
    requires OwnSkills(ds)
    ensures var ranked := Ranked(ds);
      && Distinct(ranked) && StrictlySortedBy(ranked, Before)
      && (forall d :: d in ranked <==> d in ds && d.selected)
  {
    var ranked, picked := Ranked(ds), Filter(ds, IsSelected);
    BeforeOrders();
    SortIs(picked, Before);
    MultisetMembers(ranked, picked);
    FilterMembers(ds, IsSelected);
    FilterDistinct(ds, IsSelected);
    DistinctRearranged(picked, ranked);
    forall i, j | 0 <= i < j < |ranked| ensures Before(ranked[i], ranked[j]) && !Before(ranked[j], ranked[i]) {
      assert ranked[i] in ds && ranked[j] in ds;
    }
  }

  lemma {:induction false} OrderOfIs(ids: seq<string>, k: nat)
    requires Distinct(ids) && k < |ids|
    ensures OrderOf(ids, ids[k]) == Some(k)
  {
    if k < |ids| - 1 {
      assert ids[k] != ids[|ids| - 1];
      OrderOfIs(ids[..|ids| - 1], k);
    }
  }

  lemma RankedIdsDistinct(ds: seq<Decision>)
    requires OwnSkills(ds)
    ensures Distinct(IdsOf(Ranked(ds)))
  {
    RankedIs(ds);
    var ranked := Ranked(ds);
    forall i, j | 0 <= i < j < |ranked| ensures ranked[i].skill.id != ranked[j].skill.id {
      assert ranked[i] in ds && ranked[j] in ds && ranked[i] != ranked[j];
    }
  }

  /** The entries of the ranked decisions, in rank order: what the later check must find by sorting. */
  function RankedEntries(ranked: seq<Decision>): seq<SkillEntry> { EntriesOf(ranked, IdsOf(ranked)) }

  lemma RankedEntriesInOrder(ds: seq<Decision>)
    requires OwnSkills(ds)
    ensures var t := RankedEntries(Ranked(ds));
      StrictlySortedBy(t, ByOrder) && forall k :: 0 <= k < |t| ==> t[k].order == Some(k)
  {
    RankedIdsDistinct(ds);
    var ids := IdsOf(Ranked(ds));
    forall k | 0 <= k < |ids| ensures RankedEntries(Ranked(ds))[k].order == Some(k) { OrderOfIs(ids, k); }
  }

  lemma EntriesDistinct(ds: seq<Decision>, ids: seq<string>)
    requires OwnSkills(ds)
    ensures Distinct(EntriesOf(ds, ids))
  {
    var es := EntriesOf(ds, ids);
    forall i, j | 0 <= i < j < |es| ensures es[i] != es[j] { assert es[i].skillId != es[j].skillId; }
  }

  lemma SelectedEntriesMembers(ds: seq<Decision>)
    requires OwnSkills(ds)
    ensures SameMembers(Filter(EntriesOf(ds, IdsOf(Ranked(ds))), EntrySelected), RankedEntries(Ranked(ds)))
  {
    var ranked := Ranked(ds);
    var es, t := EntriesOf(ds, IdsOf(ranked)), RankedEntries(ranked);
    var picked := Filter(es, EntrySelected);
    RankedIs(ds);
    FilterMembers(es, EntrySelected);
    forall i | 0 <= i < |picked| ensures picked[i] in t {
      assert picked[i] in es;
      var m :| 0 <= m < |es| && es[m] == picked[i];
      assert ds[m] in ranked;
      var k :| 0 <= k < |ranked| && ranked[k] == ds[m];
      assert t[k] == picked[i];
    }
    forall k | 0 <= k < |t| ensures t[k] in picked {
      assert ranked[k] in ds;
      var m :| 0 <= m < |ds| && ds[m] == ranked[k];
      assert es[m] == t[k];
    }
  }

  /** Re-sorting the per-catalog entries by their selection order reproduces the ranking. */
  lemma ResortReproduces(ds: seq<Decision>)
    requires OwnSkills(ds)
    ensures SortBy(Filter(EntriesOf(ds, IdsOf(Ranked(ds))), EntrySelected), ByOrder) == RankedEntries(Ranked(ds))
  {
    var es, t := EntriesOf(ds, IdsOf(Ranked(ds))), RankedEntries(Ranked(ds));
    var picked := Filter(es, EntrySelected);
    BeforeOrders();
    SortIs(picked, ByOrder);
    EntriesDistinct(ds, IdsOf(Ranked(ds)));
    FilterDistinct(es, EntrySelected);
    DistinctRearranged(picked, SortBy(picked, ByOrder));
    MultisetMembers(SortBy(picked, ByOrder), picked);
    SelectedEntriesMembers(ds);
    RankedEntriesInOrder(ds);
    OneArrangement(SortBy(picked, ByOrder), t, ByOrder);
  }

  /** What the skill resolver returns is consistent with the order the later check looks for. */
  lemma ResolvedConsistent(p: Profile, c: Contract, f: Functions)
    ensures ResolvedSkills(p, c, f).Ok? ==> OrderConsistent(ResolvedSkills(p, c, f).value)
  {
    if ResolvedSkills(p, c, f).Ok? {
      ValidIs(p.catalog);
      DecisionsOwnSkills(p.catalog, c, f);
      var ds := Decisions(p.catalog, c, f);
      ResortReproduces(ds);
      RankedEntriesInOrder(ds);
    }
  }

  // ---------------------------------------------------------------- what selection means

  /** Whether the contract calls for a skill, said without the loop. */
  predicate CalledFor(s: Skill, c: Contract, f: Functions) {
    s.enabled
    && (s.trigger.OnAutomatic?
        || (s.trigger.OnRequest? && s.id in c.requested)
        || (s.trigger.OnContext?
            && if s.category.Custom?
               then f.normalize(s.customCategory) != "" && f.mentions(c, f.normalize(s.customCategory))
               else s.category.BuiltIn? && s.category.subject in c.terms))
  }

  predicate Wanted(s: Skill, c: Contract) { s.trigger.OnRequest? && s.id in c.requested }

  /** `a` goes before `b`: requested before not, higher priority before lower, earlier in the catalog before later. */
  predicate GoesBefore(catalog: seq<Skill>, i: nat, j: nat, c: Contract)
    requires i < |catalog| && j < |catalog|
  {
    var a, b := catalog[i], catalog[j];
    if Wanted(a, c) != Wanted(b, c) then Wanted(a, c)
    else if a.priority != b.priority then a.priority > b.priority
    else i < j
  }

  ghost predicate PairInOrder(catalog: seq<Skill>, a: string, b: string, c: Contract) {
    exists i, j :: 0 <= i < |catalog| && 0 <= j < |catalog| && catalog[i].id == a && catalog[j].id == b &&
        GoesBefore(catalog, i, j, c)
  }

  /**
   * The selected ids are those of the skills the contract calls for, in the promised order, at most sixteen of
   * them, and the prompt never exceeds 32 KiB.
   */
  lemma SelectionIs(p: Profile, c: Contract, f: Functions)
    requires ResolvedSkills(p, c, f).Ok?
    ensures var r := ResolvedSkills(p, c, f).value;
      && |r.selectedIds| <= MAX_SELECTED_SKILLS && Bytes(r.snapshot) <= MAX_SELECTED_SKILL_BYTES
      && (forall i :: 0 <= i < |p.catalog| ==> (p.catalog[i].id in r.selectedIds <==> CalledFor(p.catalog[i], c, f)))
      && (forall k, l :: 0 <= k < l < |r.selectedIds| ==> PairInOrder(p.catalog, r.selectedIds[k], r.selectedIds[l], c))
  {
    ValidIs(p.catalog);
    DecisionsOwnSkills(p.catalog, c, f);
    var ds := Decisions(p.catalog, c, f);
    var ids := IdsOf(Ranked(ds));
    forall i | 0 <= i < |p.catalog| ensures p.catalog[i].id in ids <==> CalledFor(p.catalog[i], c, f) {
      SelectedIff(ds, ids, i);
      DecisionIs(p.catalog, i, c, f);
    }
    forall k, l | 0 <= k < l < |ids| ensures PairInOrder(p.catalog, ids[k], ids[l], c) {
      RankedPair(p.catalog, c, f, k, l);
    }
  }

  lemma SelectedIff(ds: seq<Decision>, ids: seq<string>, i: nat)
    requires OwnSkills(ds) && ids == IdsOf(Ranked(ds)) && i < |ds|
    ensures ds[i].skill.id in ids <==> ds[i].selected
  {
    RankedIs(ds);
    var ranked := Ranked(ds);
    if ds[i].selected {
      assert ds[i] in ranked;
      var k :| 0 <= k < |ranked| && ranked[k] == ds[i];
      assert ids[k] == ds[i].skill.id;
    }
    if k :| 0 <= k < |ids| && ids[k] == ds[i].skill.id {
      assert ranked[k] in ds;
      var m :| 0 <= m < |ds| && ds[m] == ranked[k];
      assert m == i;
    }
  }

  lemma RankedPair(catalog: seq<Skill>, c: Contract, f: Functions, k: nat, l: nat)
    requires KnownTriggers(catalog) && FreshIds(catalog)
    requires k < l < |Ranked(Decisions(catalog, c, f))|
    ensures var ids := IdsOf(Ranked(Decisions(catalog, c, f))); PairInOrder(catalog, ids[k], ids[l], c)
  {
    DecisionsOwnSkills(catalog, c, f);
    var ds := Decisions(catalog, c, f);
    var ranked := Ranked(ds);
    RankedIs(ds);
    assert ranked[k] in ds && ranked[l] in ds;
    var i :| 0 <= i < |ds| && ds[i] == ranked[k];
    var j :| 0 <= j < |ds| && ds[j] == ranked[l];
    DecisionIs(catalog, i, c, f);
    DecisionIs(catalog, j, c, f);
    assert Before(ranked[k], ranked[l]) && !Before(ranked[l], ranked[k]);
    assert GoesBefore(catalog, i, j, c);
  }

  // ---------------------------------------------------------------- what passing the check means

  /** A record that passes names, at each position, the one selected entry that claims that position. */
  lemma PassingIs(s: SkillRecord)
    requires OrderConsistent(s)
    ensures forall e :: e in s.entries && e.selected ==>
      e.order.Some? && e.order.value < |s.selectedIds| && s.selectedIds[e.order.value] == e.skillId
    ensures forall k :: 0 <= k < |s.selectedIds| ==>
      exists e :: e in s.entries && e.selected && e.order == Some(k) && e.skillId == s.selectedIds[k]
  {
    var picked, selected := Filter(s.entries, EntrySelected), SelectedEntries(s);
    BeforeOrders();
    SortIs(picked, ByOrder);
    MultisetMembers(selected, picked);
    FilterMembers(s.entries, EntrySelected);
    forall e | e in s.entries && e.selected
      ensures e.order.Some? && e.order.value < |s.selectedIds| && s.selectedIds[e.order.value] == e.skillId
    {
      assert e in picked;
      var k :| 0 <= k < |selected| && selected[k] == e;
    }
    forall k | 0 <= k < |s.selectedIds|
      ensures exists e :: e in s.entries && e.selected && e.order == Some(k) && e.skillId == s.selectedIds[k]
    {
      assert selected[k] in picked;
    }
  }

  /** So the entries determine the selected ids: no reordered or edited list passes beside the same entries. */
  lemma EntriesDetermineIds(a: SkillRecord, b: SkillRecord)
    requires a.entries == b.entries && OrderConsistent(a) && OrderConsistent(b)
    ensures a.selectedIds == b.selectedIds
  {
    assert SelectedEntries(a) == SelectedEntries(b);
  }
}
