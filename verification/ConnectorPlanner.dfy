/**
 * The greedy choice of connectors for a task (src/lib/agentTaskSessions.ts, planAgentTaskConnectors), and how
 * far from the smallest choice it can be.
 *
 * Matching of terms against the task's intent is a parameter. Connector ids, domains and terms are as the
 * source normalizes them: trimmed, and domains and terms without repetition.
 */
module ConnectorPlanner {
  import opened Prelude

  datatype Descriptor = Descriptor(id: string, domains: set<string>, intentTerms: set<string>)

  // ---------------------------------------------------------------- what is required

  predicate Mentioned(d: Descriptor, includes: string -> bool) {
    exists term :: term in d.domains + d.intentTerms && includes(term)
  }

  /** A domain is required for Jira's sake, or because the task mentions a connector that has it. */
  ghost predicate IsRequired(ds: seq<Descriptor>, n: nat, jira: bool, includes: string -> bool, domain: string)
    requires n <= |ds|
  {
    (jira && domain == "jira") || exists i :: 0 <= i < n && Mentioned(ds[i], includes) && domain in ds[i].domains
  }

  method CollectRequired(ds: seq<Descriptor>, jira: bool, includes: string -> bool) returns (required: set<string>)
    ensures forall d :: d in required <==> IsRequired(ds, |ds|, jira, includes, d)
  {
    required := if jira then {"jira"} else {};
    for i := 0 to |ds|
      invariant forall d :: d in required <==> IsRequired(ds, i, jira, includes, d)
    {
      if Mentioned(ds[i], includes) {
        required := required + ds[i].domains;
      }
    }
  }

  // ---------------------------------------------------------------- one greedy step

  predicate Usable(d: Descriptor, selected: seq<string>) { d.id != "" && d.id !in selected }

  function Coverage(d: Descriptor, uncovered: set<string>): nat { |d.domains * uncovered| }

  /**
   * `best` is the first of the usable descriptors that cover most, among the first `n`; none if none covers anything.
   */
  ghost predicate IsBest(ds: seq<Descriptor>, selected: seq<string>, uncovered: set<string>, n: nat, best: Option<nat>)
    requires n <= |ds|
  {
    match best
    case None => forall i :: 0 <= i < n && Usable(ds[i], selected) ==> Coverage(ds[i], uncovered) == 0
    case Some(b) =>
      && b < n && Usable(ds[b], selected) && Coverage(ds[b], uncovered) > 0
      && (forall i :: 0 <= i < n && Usable(ds[i], selected) ==>
          Coverage(ds[i], uncovered) <= Coverage(ds[b], uncovered))
      && (forall i :: 0 <= i < b && Usable(ds[i], selected) ==> Coverage(ds[i], uncovered) < Coverage(ds[b], uncovered))
  }

  method ScanForBest(ds: seq<Descriptor>, selected: seq<string>, uncovered: set<string>) returns (best: Option<nat>)
    ensures IsBest(ds, selected, uncovered, |ds|, best)
  {
    best := None;
    var bestCoverage := 0;
    for i := 0 to |ds|
      invariant IsBest(ds, selected, uncovered, i, best)
      invariant bestCoverage == if best.None? then 0 else Coverage(ds[best.value], uncovered)
    {
      if Usable(ds[i], selected) {
        var coverage := Coverage(ds[i], uncovered);
        if coverage > bestCoverage || (coverage == bestCoverage && best.Some? && i < best.value) {
          best, bestCoverage := Some(i), coverage;
        }
      }
    }
  }

  // ---------------------------------------------------------------- the whole plan

  datatype Plan = Plan(chosen: seq<nat>, unresolved: set<string>)

  function IdsOf(ds: seq<Descriptor>, chosen: seq<nat>): seq<string>
    requires InRange(ds, chosen)
  {
    seq(|chosen|, k requires 0 <= k < |chosen| => ds[chosen[k]].id)
  }

  /** What the first `n` chosen descriptors leave of `required`. */
  function LeftBy(ds: seq<Descriptor>, chosen: seq<nat>, required: set<string>): set<string>
    requires InRange(ds, chosen)
  {
    if chosen == [] then required
    else LeftBy(ds, chosen[..|chosen| - 1], required) - ds[chosen[|chosen| - 1]].domains
  }

  predicate InRange(ds: seq<Descriptor>, chosen: seq<nat>) { forall k :: 0 <= k < |chosen| ==> chosen[k] < |ds| }

  /** The best choice of next connector after the ones chosen. */
  ghost predicate BestNext(ds: seq<Descriptor>, required: set<string>, chosen: seq<nat>, next: Option<nat>)
    requires InRange(ds, chosen)
  {
    IsBest(ds, IdsOf(ds, chosen), LeftBy(ds, chosen, required), |ds|, next)
  }

  /** Every choice was the best one at its time. */
  ghost predicate GreedyChoices(ds: seq<Descriptor>, required: set<string>, chosen: seq<nat>) {
    && InRange(ds, chosen)
    && (forall k :: 0 <= k < |chosen| ==> BestNext(ds, required, chosen[..k], Some(chosen[k])))
  }

  /** A greedy run that could not go on: nothing left, or nothing that any further descriptor covers. */
  ghost predicate IsPlan(ds: seq<Descriptor>, required: set<string>, plan: Plan) {
    && GreedyChoices(ds, required, plan.chosen)
    && plan.unresolved == LeftBy(ds, plan.chosen, required)
    && (plan.unresolved == {} || BestNext(ds, required, plan.chosen, None))
  }

  method PlanConnectors(ds: seq<Descriptor>, required: set<string>) returns (plan: Plan, selected: seq<string>)
    ensures IsPlan(ds, required, plan) && selected == IdsOf(ds, plan.chosen)
  {
    var uncovered := required;
    var chosen: seq<nat> := [];
    selected := [];
    while uncovered != {}
      invariant GreedyChoices(ds, required, chosen)
      invariant uncovered == LeftBy(ds, chosen, required) && selected == IdsOf(ds, chosen)
      decreases |uncovered|
    {
      var best := ScanForBest(ds, selected, uncovered);
      if best.None? {
        break;
      }
      OneMoreChoice(ds, required, chosen, best.value);
      chosen := chosen + [best.value];
      selected := selected + [ds[best.value].id];
      uncovered := uncovered - ds[best.value].domains;
    }
    plan := Plan(chosen, uncovered);
  }

  /** The domains a task requires, and a greedy plan for them. */
  method PlanAgentTaskConnectors(ds: seq<Descriptor>, jira: bool, includes: string -> bool)
    returns (required: set<string>, plan: Plan, selected: seq<string>)
    ensures forall d :: d in required <==> IsRequired(ds, |ds|, jira, includes, d)
    ensures IsPlan(ds, required, plan) && selected == IdsOf(ds, plan.chosen)
  {
    required := CollectRequired(ds, jira, includes);
    plan, selected := PlanConnectors(ds, required);
  }

  lemma OneMoreChoice(ds: seq<Descriptor>, required: set<string>, chosen: seq<nat>, b: nat)
    requires GreedyChoices(ds, required, chosen)
    requires BestNext(ds, required, chosen, Some(b))
    ensures GreedyChoices(ds, required, chosen + [b])
    ensures LeftBy(ds, chosen + [b], required) == LeftBy(ds, chosen, required) - ds[b].domains
    ensures |LeftBy(ds, chosen + [b], required)| < |LeftBy(ds, chosen, required)|
  {
    var more := chosen + [b];
    assert more[..|chosen|] == chosen;
    forall k | 0 <= k < |more|
      ensures BestNext(ds, required, more[..k], Some(more[k]))
    {
      assert more[..k] == chosen[..k];
    }
    var u := LeftBy(ds, chosen, required);
  }

  // ---------------------------------------------------------------- what the plan leaves and what it adds

  /** Some descriptor can be chosen under this id. */
  ghost predicate Named(ds: seq<Descriptor>, id: string) { id != "" && exists i :: 0 <= i < |ds| && ds[i].id == id }

  /** Of the descriptors under this id, `t` offers all that the others offer. */
  ghost predicate TopOf(ds: seq<Descriptor>, id: string, t: nat) {
    && t < |ds| && ds[t].id == id
    && forall j :: 0 <= j < |ds| && ds[j].id == id ==> ds[j].domains <= ds[t].domains
  }

  ghost predicate HasTop(ds: seq<Descriptor>, id: string) { exists t: nat :: TopOf(ds, id, t) }

  /** Of descriptors that share an id, one offers all that the others offer; so it is when ids are distinct. */
  ghost predicate OneOffersAll(ds: seq<Descriptor>) { forall id :: Named(ds, id) ==> HasTop(ds, id) }

  ghost predicate DistinctIds(ds: seq<Descriptor>) {
    forall i, j :: 0 <= i < j < |ds| && ds[i].id != "" ==> ds[i].id != ds[j].id
  }

  lemma DistinctIsEnough(ds: seq<Descriptor>)
    requires DistinctIds(ds)
    ensures OneOffersAll(ds)
  {
    forall id | Named(ds, id) ensures HasTop(ds, id) {
      var i :| 0 <= i < |ds| && ds[i].id == id;
      assert TopOf(ds, id, i);
    }
  }

  predicate Offered(ds: seq<Descriptor>, domain: string) {
    exists i :: 0 <= i < |ds| && ds[i].id != "" && domain in ds[i].domains
  }

  lemma {:induction false} LeftIs(ds: seq<Descriptor>, chosen: seq<nat>, required: set<string>)
    requires InRange(ds, chosen)
    ensures forall d :: d in LeftBy(ds, chosen, required) <==>
      d in required && forall k :: 0 <= k < |chosen| ==> d !in ds[chosen[k]].domains
    decreases |chosen|
  {
    if chosen != [] {
      var front := chosen[..|chosen| - 1];
      LeftIs(ds, front, required);
      forall d
        ensures d in LeftBy(ds, chosen, required) <==>
          d in required && forall k :: 0 <= k < |chosen| ==> d !in ds[chosen[k]].domains
      {
        assert forall k :: 0 <= k < |front| ==> front[k] == chosen[k];
      }
    }
  }

  /** The first choice under an id leaves nothing of what any descriptor of that id offers. */
  lemma TakenIdCoversNothing(ds: seq<Descriptor>, required: set<string>, chosen: seq<nat>, i: nat)
    requires GreedyChoices(ds, required, chosen) && OneOffersAll(ds) && i < |ds| && ds[i].id in IdsOf(ds, chosen)
    ensures ds[i].domains * LeftBy(ds, chosen, required) == {}
  {
    var k :| 0 <= k < |chosen| && IdsOf(ds, chosen)[k] == ds[i].id;
    var left := LeftBy(ds, chosen[..k], required);
    assert BestNext(ds, required, chosen[..k], Some(chosen[k]));
    assert Named(ds, ds[i].id) && HasTop(ds, ds[i].id);
    BestOfId(ds, IdsOf(ds, chosen[..k]), left, chosen[k], i);
    LeftAfter(ds, required, chosen, k);
  }

  /** The best descriptor covers all that is offered under its id of what is left. */
  lemma BestOfId(ds: seq<Descriptor>, selected: seq<string>, left: set<string>, b: nat, i: nat)
    requires IsBest(ds, selected, left, |ds|, Some(b)) && i < |ds| && ds[i].id == ds[b].id && HasTop(ds, ds[i].id)
    ensures ds[i].domains * left <= ds[b].domains
  {
    var t: nat :| TopOf(ds, ds[i].id, t);
    assert Usable(ds[t], selected) && Coverage(ds[t], left) <= Coverage(ds[b], left);
    SubsetFills(ds[b].domains * left, ds[t].domains * left);
    assert ds[i].domains * left <= ds[t].domains * left;
  }

  lemma LeftAfter(ds: seq<Descriptor>, required: set<string>, chosen: seq<nat>, k: nat)
    requires InRange(ds, chosen) && k < |chosen|
    ensures LeftBy(ds, chosen, required) <= LeftBy(ds, chosen[..k], required) - ds[chosen[k]].domains
  {
    LeftIs(ds, chosen, required);
    LeftIs(ds, chosen[..k], required);
    assert forall j :: 0 <= j < k ==> chosen[..k][j] == chosen[j];
  }

  lemma SubsetFills<T>(a: set<T>, b: set<T>)
    requires a <= b && |b| <= |a|
    ensures a == b
  {
    assert b == a + (b - a);
  }

  /** No connector that could be chosen offers what is left. */
  lemma LeftIsNotOffered(ds: seq<Descriptor>, required: set<string>, plan: Plan, i: nat)
    requires IsPlan(ds, required, plan) && OneOffersAll(ds) && i < |ds| && ds[i].id != ""
    ensures ds[i].domains * plan.unresolved == {}
  {
    if ds[i].id in IdsOf(ds, plan.chosen) { TakenIdCoversNothing(ds, required, plan.chosen, i); }
  }

  /** What a chosen connector offers is not left. */
  lemma OfferedIsNotLeft(ds: seq<Descriptor>, required: set<string>, plan: Plan, d: string)
    requires IsPlan(ds, required, plan) && OneOffersAll(ds) && d in plan.unresolved
    ensures d in required && !Offered(ds, d)
  {
    LeftIs(ds, plan.chosen, required);
    forall i | 0 <= i < |ds| && ds[i].id != "" ensures d !in ds[i].domains {
      LeftIsNotOffered(ds, required, plan, i);
      assert d !in ds[i].domains * plan.unresolved;
    }
  }

  lemma NotOfferedIsLeft(ds: seq<Descriptor>, required: set<string>, plan: Plan, d: string)
    requires IsPlan(ds, required, plan) && d in required && !Offered(ds, d)
    ensures d in plan.unresolved
  {
    LeftIs(ds, plan.chosen, required);
    forall k | 0 <= k < |plan.chosen| ensures d !in ds[plan.chosen[k]].domains { assert ds[plan.chosen[k]].id != ""; }
  }

  /** Unresolved is exactly what is required and offered by no connector. */
  lemma UnresolvedIs(ds: seq<Descriptor>, required: set<string>, plan: Plan)
    requires IsPlan(ds, required, plan) && OneOffersAll(ds)
    ensures forall d :: d in plan.unresolved <==> d in required && !Offered(ds, d)
  {
    forall d | d in plan.unresolved
      ensures d in required && !Offered(ds, d)
    {
      OfferedIsNotLeft(ds, required, plan, d);
    }
    forall d | d in required && !Offered(ds, d)
      ensures d in plan.unresolved
    {
      NotOfferedIsLeft(ds, required, plan, d);
    }
  }

  /** Each chosen connector covers a required domain that none chosen before it covers; so none is chosen twice. */
  lemma EachChoiceAdds(ds: seq<Descriptor>, required: set<string>, chosen: seq<nat>, k: nat)
    requires GreedyChoices(ds, required, chosen) && k < |chosen|
    ensures exists d :: d in required && d in ds[chosen[k]].domains && forall j :: 0 <= j < k ==>
      d !in ds[chosen[j]].domains
    ensures forall j :: 0 <= j < k ==> ds[chosen[j]].id != ds[chosen[k]].id
  {
    var before := chosen[..k];
    LeftIs(ds, before, required);
    assert BestNext(ds, required, before, Some(chosen[k]));
    var gain := ds[chosen[k]].domains * LeftBy(ds, before, required);
    assert |gain| > 0;
    var d :| d in gain;
    forall j | 0 <= j < k ensures d !in ds[chosen[j]].domains && ds[chosen[j]].id != ds[chosen[k]].id {
      assert before[j] == chosen[j];
      assert IdsOf(ds, before)[j] == ds[chosen[j]].id;
    }
  }

  // ---------------------------------------------------------------- how good the plan is

  function Harmonic(n: nat): real { if n == 0 then 0.0 else Harmonic(n - 1) + 1.0 / n as real }

  lemma {:induction false} HarmonicStep(u: nat, c: nat)
    requires 0 < u && c <= u
    ensures Harmonic(u) - Harmonic(u - c) >= c as real * (1.0 / u as real)
    decreases c
  {
    if c > 0 {
      HarmonicStep(u, c - 1);
      Reciprocals(u - c + 1, u);
    }
  }

  lemma Reciprocals(a: nat, b: nat)
    requires 0 < a <= b
    ensures 1.0 / a as real >= 1.0 / b as real
  {
  }

  /** A step that covers `c` of `u` domains, where a cover of `k` sets exists, costs no more than its share. */
  lemma StepShare(k: nat, u: nat, c: nat)
    requires 0 < c <= u <= k * c
    ensures k as real * (Harmonic(u) - Harmonic(u - c)) >= 1.0
  {
    HarmonicStep(u, c);
  }

  /** `cover` names usable connectors that together offer all of `wanted`. */
  ghost predicate Covers(ds: seq<Descriptor>, cover: seq<nat>, wanted: set<string>) {
    && (forall k :: 0 <= k < |cover| ==> cover[k] < |ds| && ds[cover[k]].id != "")
    && forall d :: d in wanted ==> CoveredBy(ds, cover, d)
  }

  ghost predicate CoveredBy(ds: seq<Descriptor>, cover: seq<nat>, domain: string)
    requires InRange(ds, cover)
  {
    exists k :: 0 <= k < |cover| && domain in ds[cover[k]].domains
  }

  function Times(n: nat, c: nat): nat { if n == 0 then 0 else c + Times(n - 1, c) }

  lemma {:induction false} TimesIs(n: nat, c: nat)
    ensures Times(n, c) == n * c
  {
    if n > 0 { TimesIs(n - 1, c); }
  }

  ghost predicate NoneCoversMore(ds: seq<Descriptor>, cover: seq<nat>, wanted: set<string>, c: nat)
    requires InRange(ds, cover)
  {
    forall k :: 0 <= k < |cover| ==> Coverage(ds[cover[k]], wanted) <= c
  }

  ghost predicate CoveredBefore(ds: seq<Descriptor>, cover: seq<nat>, n: nat, domain: string)
    requires InRange(ds, cover) && n <= |cover|
  {
    exists k :: 0 <= k < n && domain in ds[cover[k]].domains
  }

  lemma {:induction false} PrefixCounts(ds: seq<Descriptor>, cover: seq<nat>, n: nat, part: set<string>,
                                        wanted: set<string>, c: nat)
    requires InRange(ds, cover) && n <= |cover| && part <= wanted && NoneCoversMore(ds, cover, wanted, c)
    requires forall d :: d in part ==> CoveredBefore(ds, cover, n, d)
    ensures |part| <= Times(n, c)
  {
    if n == 0 {
      assert part == {};
    } else {
      var last := ds[cover[n - 1]];
      forall d | d in part - last.domains ensures CoveredBefore(ds, cover, n - 1, d) {
        assert CoveredBefore(ds, cover, n, d);
      }
      PrefixCounts(ds, cover, n - 1, part - last.domains, wanted, c);
      SubsetSize(last.domains * part, last.domains * wanted);
      assert Coverage(last, wanted) <= c;
    }
  }

  /** If no member covers more than `c` of `wanted`, then `wanted` has at most `|cover|` times `c` members. */
  lemma CoverCounts(ds: seq<Descriptor>, cover: seq<nat>, wanted: set<string>, c: nat)
    requires Covers(ds, cover, wanted) && NoneCoversMore(ds, cover, wanted, c)
    ensures |wanted| <= |cover| * c
  {
    forall d | d in wanted ensures CoveredBefore(ds, cover, |cover|, d) { assert CoveredBy(ds, cover, d); }
    PrefixCounts(ds, cover, |cover|, wanted, wanted, c);
    TimesIs(|cover|, c);
  }

  function Coverable(ds: seq<Descriptor>, domains: set<string>): set<string> { set d | d in domains && Offered(ds, d) }

  /** The best step covers its share of what a cover of `|cover|` connectors still has to cover. */
  lemma BestCoversShare(ds: seq<Descriptor>, required: set<string>, chosen: seq<nat>, b: nat, cover: seq<nat>)
    requires GreedyChoices(ds, required, chosen) && OneOffersAll(ds) && Covers(ds, cover, Coverable(ds, required))
    requires BestNext(ds, required, chosen, Some(b))
    ensures |Coverable(ds, LeftBy(ds, chosen, required))| <= |cover| * Coverage(ds[b], LeftBy(ds, chosen, required))
  {
    var left := LeftBy(ds, chosen, required);
    var wanted := Coverable(ds, left);
    LeftIs(ds, chosen, required);
    forall k | 0 <= k < |cover| ensures Coverage(ds[cover[k]], wanted) <= Coverage(ds[b], left) {
      SubsetSize(ds[cover[k]].domains * wanted, ds[cover[k]].domains * left);
      if ds[cover[k]].id in IdsOf(ds, chosen) { TakenIdCoversNothing(ds, required, chosen, cover[k]); }
    }
    forall d | d in wanted ensures CoveredBy(ds, cover, d) { assert d in Coverable(ds, required); }
    CoverCounts(ds, cover, wanted, Coverage(ds[b], left));
  }

  /** What is gained is offered, so covering shrinks the coverable part by as much as the whole. */
  lemma CoverableStep(ds: seq<Descriptor>, left: set<string>, b: nat)
    requires b < |ds| && ds[b].id != ""
    ensures |Coverable(ds, left - ds[b].domains)| == |Coverable(ds, left)| - Coverage(ds[b], left)
  {
    var gain := ds[b].domains * left;
    assert Coverable(ds, left) == Coverable(ds, left - ds[b].domains) + gain;
  }

  /** What the last of the choices covered, and what a cover of its size makes of it. */
  lemma LastChoice(ds: seq<Descriptor>, required: set<string>, front: seq<nat>, b: nat, cover: seq<nat>)
    returns (u: nat, c: nat)
    requires GreedyChoices(ds, required, front) && OneOffersAll(ds) && Covers(ds, cover, Coverable(ds, required))
    requires b < |ds| && BestNext(ds, required, front, Some(b))
    ensures u == |Coverable(ds, LeftBy(ds, front, required))| && 0 < c <= u <= |cover| * c
    ensures |Coverable(ds, LeftBy(ds, front, required) - ds[b].domains)| == u - c
  {
    var left := LeftBy(ds, front, required);
    BestCoversShare(ds, required, front, b, cover);
    CoverableStep(ds, left, b);
    u, c := |Coverable(ds, left)|, Coverage(ds[b], left);
  }

  lemma {:induction false} ChoicesBound(ds: seq<Descriptor>, required: set<string>, chosen: seq<nat>, cover: seq<nat>)
    requires GreedyChoices(ds, required, chosen) && OneOffersAll(ds) && Covers(ds, cover, Coverable(ds, required))
    ensures Bounded(|chosen|, |cover|, |Coverable(ds, required)|, |Coverable(ds, LeftBy(ds, chosen, required))|)
    decreases |chosen|
  {
    if chosen != [] {
      var front, b := chosen[..|chosen| - 1], chosen[|chosen| - 1];
      ShorterChoices(ds, required, chosen);
      ChoicesBound(ds, required, front, cover);
      var u, c := LastChoice(ds, required, front, b, cover);
      BoundStep(|front|, |cover|, |Coverable(ds, required)|, u, c);
    }
  }

  /** `m` choices left `u` of `n` coverable domains, where a cover of `k` exists. */
  predicate Bounded(m: nat, k: nat, n: nat, u: nat) {
    m as real <= k as real * (Harmonic(n) - Harmonic(u))
  }

  lemma BoundStep(m: nat, k: nat, n: nat, u: nat, c: nat)
    requires Bounded(m, k, n, u) && 0 < c <= u <= k * c
    ensures Bounded(m + 1, k, n, u - c)
  {
    StepShare(k, u, c);
  }

  lemma ShorterChoices(ds: seq<Descriptor>, required: set<string>, chosen: seq<nat>)
    requires GreedyChoices(ds, required, chosen) && chosen != []
    ensures var front, b := chosen[..|chosen| - 1], chosen[|chosen| - 1];
      && GreedyChoices(ds, required, front) && b < |ds| && BestNext(ds, required, front, Some(b))
  {
    var front := chosen[..|chosen| - 1];
    forall k | 0 <= k < |front|
      ensures BestNext(ds, required, front[..k], Some(front[k]))
    {
      assert front[..k] == chosen[..k];
    }
  }

  predicate WithinHarmonic(m: nat, k: nat, n: nat) { m as real <= k as real * Harmonic(n) }

  lemma NothingCoverableLeft(ds: seq<Descriptor>, required: set<string>, plan: Plan)
    requires IsPlan(ds, required, plan) && OneOffersAll(ds)
    ensures |Coverable(ds, LeftBy(ds, plan.chosen, required))| == 0
  {
    UnresolvedIs(ds, required, plan);
    assert Coverable(ds, plan.unresolved) == {};
  }

  /** The plan is at most H(n) times as large as any cover of the `n` required domains that can be covered at all. */
  lemma PlanBound(ds: seq<Descriptor>, required: set<string>, plan: Plan, cover: seq<nat>)
    requires IsPlan(ds, required, plan) && OneOffersAll(ds) && Covers(ds, cover, Coverable(ds, required))
    ensures WithinHarmonic(|plan.chosen|, |cover|, |Coverable(ds, required)|)
  {
    ChoicesBound(ds, required, plan.chosen, cover);
    NothingCoverableLeft(ds, required, plan);
  }

  // ---------------------------------------------------------------- descriptors under one id

  /** Whatever is required, a plan resolves all of it that some connector offers. */
  ghost predicate ResolvesOffered(ds: seq<Descriptor>) {
    forall required, plan :: IsPlan(ds, required, plan) ==> forall d :: d in plan.unresolved ==> !Offered(ds, d)
  }

  /** No domain is offered under two ids. */
  ghost predicate IdsApart(ds: seq<Descriptor>) {
    forall i, j :: 0 <= i < |ds| && 0 <= j < |ds| && ds[i].id != "" && ds[j].id != "" && ds[i].id != ds[j].id ==>
      ds[i].domains * ds[j].domains == {}
  }

  lemma {:induction false} BestExists(ds: seq<Descriptor>, selected: seq<string>, uncovered: set<string>, n: nat)
    returns (best: Option<nat>)
    requires n <= |ds|
    ensures IsBest(ds, selected, uncovered, n, best)
  {
    best := None;
    if n > 0 {
      best := BestExists(ds, selected, uncovered, n - 1);
      var c := Coverage(ds[n - 1], uncovered);
      if Usable(ds[n - 1], selected) && c > 0 && (best.None? || c > Coverage(ds[best.value], uncovered)) {
        best := Some(n - 1);
      }
    }
  }

  /** All that the first `n` descriptors offer under one id. */
  function OfferedUnder(ds: seq<Descriptor>, id: string, n: nat): set<string>
    requires n <= |ds|
  {
    if n == 0 then {} else OfferedUnder(ds, id, n - 1) + if ds[n - 1].id == id then ds[n - 1].domains else {}
  }

  ghost predicate OffersUnder(ds: seq<Descriptor>, id: string, n: nat, d: string)
    requires n <= |ds|
  {
    exists j :: 0 <= j < n && ds[j].id == id && d in ds[j].domains
  }

  lemma {:induction false} OfferedUnderIs(ds: seq<Descriptor>, id: string, n: nat)
    requires n <= |ds|
    ensures forall d :: d in OfferedUnder(ds, id, n) <==> OffersUnder(ds, id, n, d)
  {
    if n > 0 { OfferedUnderIs(ds, id, n - 1); }
  }

  /** A plan for all that is offered under one id: one choice, and what that one lacks is unresolved. */
  lemma PlanForOneId(ds: seq<Descriptor>, id: string) returns (plan: Plan)
    requires IdsApart(ds) && id != ""
    ensures IsPlan(ds, OfferedUnder(ds, id, |ds|), plan)
    ensures plan.unresolved == {} ==> OfferedUnder(ds, id, |ds|) == {} || HasTop(ds, id)
  {
    var required := OfferedUnder(ds, id, |ds|);
    assert IdsOf(ds, []) == [];
    var best := BestExists(ds, [], required, |ds|);
    if best.None? {
      plan := Plan([], required);
    } else {
      var b := best.value;
      plan := Plan([b], required - ds[b].domains);
      BestSharesId(ds, id, b);
      OneChoice(ds, id, b);
      if plan.unresolved == {} { CoversItsId(ds, id, b); }
    }
  }

  lemma CoversItsId(ds: seq<Descriptor>, id: string, b: nat)
    requires b < |ds| && ds[b].id == id && OfferedUnder(ds, id, |ds|) <= ds[b].domains
    ensures HasTop(ds, id)
  {
    OfferedUnderIs(ds, id, |ds|);
    forall j | 0 <= j < |ds| && ds[j].id == id ensures ds[j].domains <= ds[b].domains {
      assert forall d :: d in ds[j].domains ==> OffersUnder(ds, id, |ds|, d);
    }
    assert TopOf(ds, id, b);
  }

  lemma BestSharesId(ds: seq<Descriptor>, id: string, b: nat)
    requires IdsApart(ds) && id != "" && b < |ds| && ds[b].id != "" && Coverage(ds[b], OfferedUnder(ds, id, |ds|)) > 0
    ensures ds[b].id == id
  {
    OfferedUnderIs(ds, id, |ds|);
    var d :| d in ds[b].domains * OfferedUnder(ds, id, |ds|);
    assert OffersUnder(ds, id, |ds|, d);
    var j :| 0 <= j < |ds| && ds[j].id == id && d in ds[j].domains;
    assert d in ds[b].domains * ds[j].domains;
  }

  /** Once a descriptor of the id is chosen, no other covers anything of what is left. */
  lemma OneChoice(ds: seq<Descriptor>, id: string, b: nat)
    requires IdsApart(ds) && id != "" && b < |ds| && ds[b].id == id
    requires var required := OfferedUnder(ds, id, |ds|); IsBest(ds, [], required, |ds|, Some(b))
    ensures var required := OfferedUnder(ds, id, |ds|); IsPlan(ds, required, Plan([b], required - ds[b].domains))
  {
    var required := OfferedUnder(ds, id, |ds|);
    assert [b][..0] == [] && IdsOf(ds, []) == [] && IdsOf(ds, [b]) == [id];
    assert LeftBy(ds, [b], required) == required - ds[b].domains;
    assert BestNext(ds, required, [], Some(b));
    forall j | 0 <= j < |ds| && Usable(ds[j], [id]) ensures Coverage(ds[j], required - ds[b].domains) == 0 {
      SubsetSize(ds[j].domains * (required - ds[b].domains), ds[j].domains * required);
      if Coverage(ds[j], required) > 0 { BestSharesId(ds, id, j); }
    }
  }

  lemma UnderIdIsOffered(ds: seq<Descriptor>, id: string, plan: Plan)
    requires id != "" && IsPlan(ds, OfferedUnder(ds, id, |ds|), plan)
    ensures forall d :: d in plan.unresolved ==> Offered(ds, d)
  {
    OfferedUnderIs(ds, id, |ds|);
    LeftIs(ds, plan.chosen, OfferedUnder(ds, id, |ds|));
    forall d | d in plan.unresolved ensures Offered(ds, d) {
      assert OffersUnder(ds, id, |ds|, d);
    }
  }

  /** If plans resolve all that is offered, then some descriptor of each id offers all that is offered under it. */
  lemma TopIsNeeded(ds: seq<Descriptor>, id: string)
    requires IdsApart(ds) && ResolvesOffered(ds) && Named(ds, id)
    ensures HasTop(ds, id)
  {
    var plan := PlanForOneId(ds, id);
    UnderIdIsOffered(ds, id, plan);
    assert plan.unresolved == {};
    if OfferedUnder(ds, id, |ds|) == {} {
      var i :| 0 <= i < |ds| && ds[i].id == id;
      CoversItsId(ds, id, i);
    }
  }

  /**
   * Where no domain is offered under two ids, every plan resolves all that is offered exactly if of the descriptors
   * under one id one offers all that the others offer. The one half holds for any descriptors (UnresolvedIs).
   */
  lemma ResolvesOfferedIff(ds: seq<Descriptor>)
    requires IdsApart(ds)
    ensures ResolvesOffered(ds) <==> OneOffersAll(ds)
  {
    if OneOffersAll(ds) {
      forall required, plan | IsPlan(ds, required, plan) ensures forall d :: d in plan.unresolved ==> !Offered(ds, d) {
        UnresolvedIs(ds, required, plan);
      }
    }
    if ResolvesOffered(ds) {
      forall id | Named(ds, id) ensures HasTop(ds, id) { TopIsNeeded(ds, id); }
    }
  }

  /**
   * Two connectors under one id: the second is never looked at again, and its domain stays unresolved though offered.
   */
  lemma SharedIdLosesDomain()
    ensures var ds := [Descriptor("a", {"x", "y"}, {}), Descriptor("a", {"z"}, {})];
      var plan := Plan([0], {"z"});
      IsPlan(ds, {"x", "y", "z"}, plan) && Offered(ds, "z")
  {
    var ds := [Descriptor("a", {"x", "y"}, {}), Descriptor("a", {"z"}, {})];
    var required := {"x", "y", "z"};
    assert ds[0].domains * required == {"x", "y"} && ds[1].domains * required == {"z"};
    assert IdsOf(ds, []) == [] && IdsOf(ds, [0]) == ["a"] && [0][..0] == [];
    assert BestNext(ds, required, [], Some(0));
    assert LeftBy(ds, [0], required) == {"z"};
    assert !Usable(ds[0], ["a"]) && !Usable(ds[1], ["a"]);
    assert "z" in ds[1].domains;
  }
}
