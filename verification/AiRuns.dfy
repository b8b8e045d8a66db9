/**
 * The registry of AI runs (src-tauri/src/infrastructure/ai_run.rs): their statuses, cancellation tokens and
 * capability grants, and the pruning of old runs. Each call is one atomic step, except that granting capabilities
 * is two: a check of the run and an insertion, between which others may come.
 */
module AiRuns {
  import opened Prelude
  import opened Sorting
  import opened Text

  const MAX_RETAINED_RUNS: nat := 256

  datatype Kind = Chat | Edit | Agent

  datatype Status = Queued | Running | Cancelling | Completed | Blocked | Failed | Cancelled

  predicate Terminal(s: Status) { s.Completed? || s.Blocked? || s.Failed? || s.Cancelled? }

  datatype Run = Run(id: string, kind: Kind, status: Status, createdAt: nat, updatedAt: nat)

  datatype Refusal = IdRequired | AlreadyExists | NotFound | CannotStart | NotQueuedAgent | UnsupportedCapability
                   | NotTerminalStatus | StatusImmutable

  type Runs = map<string, Run>

  ghost predicate Keyed(runs: Runs) { forall id :: id in runs ==> runs[id].id == id }

  function TerminalIds(runs: Runs): set<string> { set id | id in runs && Terminal(runs[id].status) }

  function LiveIds(runs: Runs): set<string> { set id | id in runs && !Terminal(runs[id].status) }

  // ---------------------------------------------------------------- pruning

  /** Older runs first; among equals by id. */
  predicate OlderFirst(a: Run, b: Run) {
    a.updatedAt < b.updatedAt || (a.updatedAt == b.updatedAt && LexLe(a.id, b.id))
  }

  lemma OlderFirstOrders()
    ensures TotalPreorder(OlderFirst)
  {
    forall a: Run, b: Run ensures OlderFirst(a, b) || OlderFirst(b, a) { LexTotal(a.id, b.id); }
    forall a: Run, b: Run, c: Run | OlderFirst(a, b) && OlderFirst(b, c) ensures OlderFirst(a, c) {
      if a.updatedAt == b.updatedAt == c.updatedAt { LexTransitive(a.id, b.id, c.id); }
    }
  }

  /** How many runs pruning leaves: the limit, unless more than that are not terminal. */
  function KeptCount(runs: Runs): nat {
    if |runs| <= MAX_RETAINED_RUNS then |runs| else Max(MAX_RETAINED_RUNS, |LiveIds(runs)|)
  }

  /** Only terminal runs went, none of them newer than a terminal run that stayed, and no more than needed. */
  ghost predicate IsPruned(runs: Runs, kept: Runs) {
    && kept.Keys <= runs.Keys && |kept| == KeptCount(runs)
    && (forall id :: id in kept ==> kept[id] == runs[id])
    && (forall id :: id in runs && id !in kept ==> Terminal(runs[id].status))
    && (forall gone, stays :: gone in runs && gone !in kept && stays in kept && Terminal(runs[stays].status) ==>
          OlderFirst(runs[gone], runs[stays]))
  }

  lemma LiveAndTerminal(runs: Runs)
    ensures |runs| == |LiveIds(runs)| + |TerminalIds(runs)|
  {
    assert runs.Keys == LiveIds(runs) + TerminalIds(runs);
  }

  /** Where the table's order leads is of no consequence: there is one way to prune. */
  lemma PrunedOneWay(runs: Runs, a: Runs, b: Runs)
    requires Keyed(runs) && IsPruned(runs, a) && IsPruned(runs, b)
    ensures a == b
  {
    if !(a.Keys <= b.Keys) {
      var x :| x in a.Keys && x !in b.Keys;
      forall y | y in b.Keys ensures y in a.Keys { LexTotal(runs[x].id, runs[y].id); }
    }
    SameSizeEqual(a.Keys, b.Keys);
  }

  lemma SameSizeEqual(a: set<string>, b: set<string>)
    requires |a| == |b| && (a <= b || b <= a)
    ensures a == b
  {
    assert a == (a - b) + a * b && b == (b - a) + a * b;
    assert |a - b| == |b - a|;
  }

  /** The runs of `ids` as a list, in the order the table happens to give. */
  method ListRuns(runs: Runs, ids: set<string>) returns (list: seq<Run>)
    requires Keyed(runs) && ids <= runs.Keys
    ensures Distinct(list) && |list| == |ids| && forall r :: r in list <==> r.id in ids && runs[r.id] == r
  {
    list := [];
    var rest := ids;
    while rest != {}
      invariant rest <= ids && Distinct(list) && |list| + |rest| == |ids|
      invariant forall r :: r in list <==> r.id in ids - rest && runs[r.id] == r
      decreases |rest|
    {
      var id :| id in rest;
      list := list + [runs[id]];
      rest := rest - {id};
    }
  }

  /** `terminal` lists the terminal runs, each once, older ones first. */
  ghost predicate ListsTerminal(runs: Runs, terminal: seq<Run>) {
    && SortedBy(terminal, OlderFirst) && |terminal| == |TerminalIds(runs)|
    && DistinctIds(terminal)
    && (forall k :: 0 <= k < |terminal| ==> terminal[k].id in TerminalIds(runs) && runs[terminal[k].id] == terminal[k])
    && (forall id :: id in TerminalIds(runs) ==> runs[id] in terminal)
  }

  lemma SortedListsTerminal(runs: Runs, listed: seq<Run>)
    requires Keyed(runs) && Distinct(listed) && |listed| == |TerminalIds(runs)|
    requires forall r :: r in listed <==> r.id in TerminalIds(runs) && runs[r.id] == r
    ensures ListsTerminal(runs, SortBy(listed, OlderFirst))
  {
    var terminal := SortBy(listed, OlderFirst);
    OlderFirstOrders();
    SortIs(listed, OlderFirst);
    DistinctRearranged(listed, terminal);
    MultisetMembers(listed, terminal);
    forall k | 0 <= k < |terminal| ensures terminal[k].id in TerminalIds(runs) && runs[terminal[k].id] == terminal[k] {
      assert terminal[k] in listed;
    }
    forall id | id in TerminalIds(runs) ensures runs[id] in terminal { assert runs[id] in listed; }
  }

  function Oldest(terminal: seq<Run>, n: nat): set<string>
    requires n <= |terminal|
  {
    set k | 0 <= k < n :: terminal[k].id
  }

  method PruneRuns(runs: Runs) returns (kept: Runs)
    requires Keyed(runs)
    ensures IsPruned(runs, kept)
  {
    kept := runs;
    if |runs| <= MAX_RETAINED_RUNS {
      return;
    }
    var listed := ListRuns(runs, TerminalIds(runs));
    var terminal := SortBy(listed, OlderFirst);
    SortedListsTerminal(runs, listed);
    kept := RemoveOldest(runs, terminal, Min(|runs| - MAX_RETAINED_RUNS, |terminal|));
    PrunedIs(runs, terminal, Min(|runs| - MAX_RETAINED_RUNS, |terminal|));
  }

  method RemoveOldest(runs: Runs, terminal: seq<Run>, n: nat) returns (kept: Runs)
    requires n <= |terminal|
    ensures kept == runs - Oldest(terminal, n)
  {
    kept := runs;
    for i := 0 to n
      invariant kept == runs - Oldest(terminal, i)
    {
      kept := kept - {terminal[i].id};
      OneMoreOldest(terminal, i);
      RemoveOneMore(runs, Oldest(terminal, i), terminal[i].id);
    }
  }

  lemma OneMoreOldest(terminal: seq<Run>, i: nat)
    requires i < |terminal|
    ensures Oldest(terminal, i + 1) == Oldest(terminal, i) + {terminal[i].id}
  {
  }

  lemma RemoveOneMore(runs: Runs, gone: set<string>, id: string)
    ensures runs - gone - {id} == runs - (gone + {id})
  {
  }

  ghost predicate DistinctIds(terminal: seq<Run>) {
    forall k, l :: 0 <= k < l < |terminal| ==> terminal[k].id != terminal[l].id
  }

  lemma {:induction false} OldestCount(terminal: seq<Run>, n: nat)
    requires DistinctIds(terminal) && n <= |terminal|
    ensures |Oldest(terminal, n)| == n
  {
    if n > 0 {
      OldestCount(terminal, n - 1);
      OneMoreOldest(terminal, n - 1);
      assert terminal[n - 1].id !in Oldest(terminal, n - 1);
    }
  }

  lemma RemovedCount(runs: Runs, gone: set<string>)
    requires gone <= runs.Keys
    ensures |runs - gone| == |runs| - |gone|
  {
    assert runs.Keys == (runs - gone).Keys + gone;
  }

  lemma OldestAreOlder(runs: Runs, terminal: seq<Run>, n: nat, gone: string, stays: string)
    requires Keyed(runs) && ListsTerminal(runs, terminal) && n <= |terminal|
    requires gone in Oldest(terminal, n) && stays in TerminalIds(runs) && stays !in Oldest(terminal, n)
    ensures gone in runs && OlderFirst(runs[gone], runs[stays])
  {
    var k :| 0 <= k < n && terminal[k].id == gone;
    var l :| 0 <= l < |terminal| && terminal[l] == runs[stays];
    assert l >= n;
  }

  lemma PrunedIs(runs: Runs, terminal: seq<Run>, excess: nat)
    requires Keyed(runs) && |runs| > MAX_RETAINED_RUNS && ListsTerminal(runs, terminal)
    requires excess == Min(|runs| - MAX_RETAINED_RUNS, |terminal|)
    ensures IsPruned(runs, runs - Oldest(terminal, excess))
  {
    LiveAndTerminal(runs);
    OldestCount(terminal, excess);
    assert Oldest(terminal, excess) <= TerminalIds(runs);
    RemovedCount(runs, Oldest(terminal, excess));
    forall gone, stays | gone in Oldest(terminal, excess) && stays in TerminalIds(runs) &&
        stays !in Oldest(terminal, excess)
      ensures OlderFirst(runs[gone], runs[stays])
    {
      OldestAreOlder(runs, terminal, excess, gone, stays);
    }
  }

  // ---------------------------------------------------------------- the registry

  const EXTERNAL: string := "external_tools:"

  predicate Allowed(capability: string) {
    || capability in ["workspace_read", "workspace_write", "shell", "git"]
    || (EXTERNAL <= capability && |capability| > |EXTERNAL|)
  }

  predicate AllAllowed(capabilities: set<string>) { forall c :: c in capabilities ==> Allowed(c) }

  function Requested(capabilities: seq<string>): set<string> {
    set k | 0 <= k < |capabilities| :: Trim(capabilities[k])
  }

  /** Terminal runs that are still there are as they were. */
  ghost predicate TerminalKept(before: Runs, after: Runs) {
    forall id :: id in before && Terminal(before[id].status) && id in after ==> after[id] == before[id]
  }

  class AiRunRegistry {
    var runs: Runs
    var tokens: map<string, bool>
    var grants: map<string, set<string>>

    /** Tokens are those of the live runs, set for the ones being cancelled. */
    ghost predicate Core()
      reads this
    {
      && Keyed(runs)
      && tokens.Keys == LiveIds(runs)
      && (forall id :: id in tokens ==> (tokens[id] <==> runs[id].status == Cancelling))
    }

    /** Grants belong to live Agent runs. */
    ghost predicate Granted()
      reads this
    {
      forall id :: id in grants ==> id in LiveIds(runs) && runs[id].kind == Agent
    }

    constructor ()
      ensures Core() && Granted() && runs == map[] && tokens == map[] && grants == map[]
    {
      runs, tokens, grants := map[], map[], map[];
    }

    method Begin(id: string, kind: Kind, now: nat) returns (r: Result<Run, Refusal>)
      requires Core()
      modifies this`runs, this`tokens
      ensures Core() && (old(Granted()) ==> Granted()) && TerminalKept(old(runs), runs)
      ensures r == if Trim(id) == "" then Err(IdRequired) else if id in old(runs) then Err(AlreadyExists)
                   else Ok(Run(id, kind, Queued, now, now))
      ensures if r.Ok? then runs == old(runs)[id := r.value] && tokens == old(tokens)[id := false]
              else runs == old(runs) && tokens == old(tokens)
    {
      if Trim(id) == "" {
        return Err(IdRequired);
      }
      if id in runs {
        return Err(AlreadyExists);
      }
      var run := Run(id, kind, Queued, now, now);
      runs := runs[id := run];
      tokens := tokens[id := false];
      return Ok(run);
    }

    method Start(id: string, now: nat) returns (r: Result<Run, Refusal>)
      requires Core()
      modifies this`runs
      ensures Core() && (old(Granted()) ==> Granted()) && TerminalKept(old(runs), runs)
      ensures r == if id !in old(runs) then Err(NotFound) else if old(runs)[id].status != Queued then Err(CannotStart)
                   else Ok(old(runs)[id].(status := Running, updatedAt := now))
      ensures runs == if r.Ok? then old(runs)[id := r.value] else old(runs)
    {
      if id !in runs {
        return Err(NotFound);
      }
      if runs[id].status != Queued {
        return Err(CannotStart);
      }
      runs := runs[id := runs[id].(status := Running, updatedAt := now)];
      return Ok(runs[id]);
    }

    method Cancel(id: string, now: nat) returns (cancelling: bool)
      requires Core()
      modifies this`runs, this`tokens
      ensures Core() && (old(Granted()) ==> Granted()) && TerminalKept(old(runs), runs)
      ensures cancelling <==> id in LiveIds(old(runs))
      ensures if cancelling
              then runs == old(runs)[id := old(runs)[id].(status := Cancelling, updatedAt := now)] &&
                tokens == old(tokens)[id := true]
              else runs == old(runs) && tokens == old(tokens)
    {
      if id !in runs || Terminal(runs[id].status) {
        return false;
      }
      runs := runs[id := runs[id].(status := Cancelling, updatedAt := now)];
      if id in tokens {
        tokens := tokens[id := true];
      }
      return true;
    }

    /** The first step of a grant, under the lock of the runs: may these capabilities be granted to this run? */
    method CheckGrant(id: string, capabilities: seq<string>) returns (r: Result<set<string>, Refusal>)
      ensures r == if id !in runs then Err(NotFound)
                   else if runs[id].kind != Agent || runs[id].status != Queued then Err(NotQueuedAgent)
                   else if Requested(capabilities) == {} || !AllAllowed(Requested(capabilities))
                        then Err(UnsupportedCapability)
                   else Ok(Requested(capabilities))
    {
      if id !in runs {
        return Err(NotFound);
      }
      if runs[id].kind != Agent || runs[id].status != Queued {
        return Err(NotQueuedAgent);
      }
      var granted := Requested(capabilities);
      if granted == {} || !AllAllowed(granted) {
        return Err(UnsupportedCapability);
      }
      return Ok(granted);
    }

    /**
     * The second step, under the lock of the grants alone: it is in order exactly if the run is still a live Agent
     * run.
     */
    method InsertGrant(id: string, granted: set<string>)
      requires Core()
      modifies this`grants
      ensures Core() && grants == old(grants)[id := granted]
      ensures old(Granted()) ==> (Granted() <==> id in LiveIds(runs) && runs[id].kind == Agent)
    {
      grants := grants[id := granted];
      assert id in grants;
    }

    /** Both steps with nothing in between. */
    method GrantCapabilities(id: string, capabilities: seq<string>) returns (r: Result<set<string>, Refusal>)
      requires Core()
      modifies this`grants
      ensures Core() && (old(Granted()) ==> Granted())
      ensures r == if id !in runs then Err(NotFound)
                   else if runs[id].kind != Agent || runs[id].status != Queued then Err(NotQueuedAgent)
                   else if Requested(capabilities) == {} || !AllAllowed(Requested(capabilities))
                        then Err(UnsupportedCapability)
                   else Ok(Requested(capabilities))
      ensures grants == if r.Ok? then old(grants)[id := r.value] else old(grants)
    {
      r := CheckGrant(id, capabilities);
      if r.Ok? {
        InsertGrant(id, r.value);
      }
    }

    /** A run that is terminal already may only be finished as what it is. */
    method Finish(id: string, status: Status, now: nat) returns (r: Result<Run, Refusal>)
      requires Core()
      modifies this`runs, this`tokens, this`grants
      ensures Core() && (old(Granted()) ==> Granted()) && TerminalKept(old(runs), runs)
      ensures r == if !Terminal(status) then Err(NotTerminalStatus)
                   else if id !in old(runs) then Err(NotFound)
                   else if !Terminal(old(runs)[id].status) then Ok(old(runs)[id].(status := status, updatedAt := now))
                   else if old(runs)[id].status == status then Ok(old(runs)[id])
                   else Err(StatusImmutable)
      ensures Terminal(status) && id in LiveIds(old(runs)) ==>
        && IsPruned(old(runs)[id := r.value], runs) && tokens == old(tokens) - {id} && grants == old(grants) - {id}
        && |runs| <= Max(MAX_RETAINED_RUNS, |LiveIds(runs)|)
      ensures !(Terminal(status) && id in LiveIds(old(runs))) ==>
        runs == old(runs) && tokens == old(tokens) && grants == old(grants)
    {
      if !Terminal(status) {
        return Err(NotTerminalStatus);
      }
      if id !in runs {
        return Err(NotFound);
      }
      if Terminal(runs[id].status) {
        if runs[id].status == status {
          return Ok(runs[id]);
        }
        return Err(StatusImmutable);
      }
      var finished := runs[id].(status := status, updatedAt := now);
      tokens := tokens - {id};
      grants := grants - {id};
      runs := PruneRuns(runs[id := finished]);
      EndKeeps(old(runs), id, finished, runs);
      return Ok(finished);
    }
  }

  /** Ending a run and pruning leaves the other live runs alone, and every terminal run that stays. */
  lemma EndKeeps(before: Runs, id: string, finished: Run, kept: Runs)
    requires Keyed(before) && id in LiveIds(before) && finished.id == id && Terminal(finished.status)
    requires IsPruned(before[id := finished], kept)
    ensures Keyed(kept) && LiveIds(kept) == LiveIds(before) - {id} && TerminalKept(before, kept)
    ensures forall j :: j in LiveIds(kept) ==> kept[j] == before[j]
    ensures |kept| <= Max(MAX_RETAINED_RUNS, |LiveIds(kept)|)
  {
    assert LiveIds(before[id := finished]) == LiveIds(before) - {id};
    assert LiveIds(kept) == LiveIds(before[id := finished]);
  }

  lemma OneRunStays(run: Run, kept: Runs)
    requires IsPruned(map[run.id := run], kept)
    ensures kept == map[run.id := run]
  {
    assert |kept.Keys| == 1;
    var id :| id in kept.Keys;
  }

  /** A new registry in which one run was begun and checked for a grant. */
  method BegunAndChecked(id: string, capabilities: seq<string>) returns (registry: AiRunRegistry, granted: set<string>)
    requires Trim(id) != "" && Requested(capabilities) != {} && AllAllowed(Requested(capabilities))
    ensures fresh(registry) && registry.Core() && registry.grants == map[] && granted == Requested(capabilities)
    ensures registry.runs == map[id := Run(id, Agent, Queued, 0, 0)]
  {
    registry := new AiRunRegistry();
    var begun := registry.Begin(id, Agent, 0);
    var checked := registry.CheckGrant(id, capabilities);
    granted := checked.value;
  }

  method FinishOnly(registry: AiRunRegistry, run: Run)
    requires registry.Core() && registry.runs == map[run.id := run] && !Terminal(run.status) && registry.grants == map[]
    modifies registry
    ensures registry.Core() && registry.grants == map[]
    ensures registry.runs == map[run.id := run.(status := Cancelled, updatedAt := 1)]
  {
    assert run.id in LiveIds(registry.runs);
    var finished := registry.Finish(run.id, Cancelled, 1);
    assert map[run.id := run][run.id := finished.value] == map[run.id := finished.value];
    OneRunStays(finished.value, registry.runs);
  }

  /** Any run, and any grant: a run that is finished between the two steps is left with its grant. */
  method GrantAfterFinish(id: string, capabilities: seq<string>) returns (registry: AiRunRegistry)
    requires Trim(id) != "" && Requested(capabilities) != {} && AllAllowed(Requested(capabilities))
    ensures fresh(registry) && registry.Core() && registry.grants == map[id := Requested(capabilities)]
    ensures registry.runs == map[id := Run(id, Agent, Cancelled, 0, 1)] && !registry.Granted()
  {
    var granted;
    registry, granted := BegunAndChecked(id, capabilities);
    FinishOnly(registry, Run(id, Agent, Queued, 0, 0));
    assert id !in LiveIds(registry.runs);
    registry.InsertGrant(id, granted);
  }

  // ---------------------------------------------------------------- a grant that is inherited

  /** The `k`-th of the ids that are longer than `id`. */
  function LongerId(id: string, k: nat): string { seq(|id| + k + 1, _ => 'x') }

  lemma LongerIdUsable(id: string, k: nat)
    ensures Trim(LongerId(id, k)) != ""
  {
    var s := LongerId(id, k);
    assert s[0] == 'x' && s[|s| - 1] == 'x';
  }

  /** Apart from `id`, which ended at 1, every run ended later and has one of the first `k` longer ids. */
  ghost predicate EndedLater(runs: Runs, id: string, k: nat) {
    && Keyed(runs) && |runs| <= MAX_RETAINED_RUNS
    && (id in runs ==> Terminal(runs[id].status) && runs[id].updatedAt == 1)
    && forall j :: j in runs && j != id ==> Terminal(runs[j].status) && runs[j].updatedAt == 2 && |j| <= |id| + k
  }

  /** One more run begun and ended: there is one more in the registry, or it is `id` that gave way. */
  lemma OneMoreEnded(before: Runs, id: string, k: nat, run: Run, kept: Runs)
    requires EndedLater(before, id, k) && id in before && run.id == LongerId(id, k)
    requires Terminal(run.status) && run.updatedAt == 2 && IsPruned(before[run.id := run], kept)
    ensures EndedLater(kept, id, k + 1) && (id in kept ==> |kept| == |before| + 1)
  {
    var all := before[run.id := run];
    assert run.id !in before;
    assert |all| == |before| + 1;
    LiveAndTerminal(all);
    assert LiveIds(all) == {};
    if id in kept {
      forall gone | gone in all && gone !in kept ensures OlderFirst(all[gone], all[id]) {
        assert id in kept && Terminal(all[id].status);
      }
      assert kept.Keys == all.Keys;
    }
  }

  method FinishLive(registry: AiRunRegistry, id: string)
    requires registry.Core() && id in LiveIds(registry.runs) && id !in registry.grants
    modifies registry
    ensures registry.Core() && registry.grants == old(registry.grants)
    ensures IsPruned(old(registry.runs)[id := old(registry.runs)[id].(status := Completed, updatedAt := 2)],
                     registry.runs)
  {
    var finished := registry.Finish(id, Completed, 2);
    assert registry.grants == old(registry.grants);
  }

  method BeginAndFinish(registry: AiRunRegistry, id: string)
    requires registry.Core() && Trim(id) != "" && id !in registry.runs && id !in registry.grants
    modifies registry
    ensures registry.Core() && registry.grants == old(registry.grants)
    ensures IsPruned(old(registry.runs)[id := Run(id, Chat, Completed, 2, 2)], registry.runs)
  {
    ghost var before := registry.runs;
    var begun := registry.Begin(id, Chat, 2);
    ghost var queued := registry.runs;
    assert id in LiveIds(queued);
    FinishLive(registry, id);
    assert queued[id := Run(id, Chat, Completed, 2, 2)] == before[id := Run(id, Chat, Completed, 2, 2)];
  }

  method EndAnother(registry: AiRunRegistry, id: string, k: nat)
    requires registry.Core() && EndedLater(registry.runs, id, k) && id in registry.runs && registry.grants.Keys <= {id}
    modifies registry
    ensures registry.Core() && EndedLater(registry.runs, id, k + 1) && registry.grants == old(registry.grants)
    ensures id in registry.runs ==> |registry.runs| == |old(registry.runs)| + 1
  {
    var another := LongerId(id, k);
    LongerIdUsable(id, k);
    ghost var before := registry.runs;
    assert another !in before;
    BeginAndFinish(registry, another);
    OneMoreEnded(before, id, k, Run(another, Chat, Completed, 2, 2), registry.runs);
  }

  /** Runs begun and ended one after another, until pruning has taken `id` out. */
  method EndOthers(registry: AiRunRegistry, id: string)
    requires registry.Core() && EndedLater(registry.runs, id, 0) && registry.grants.Keys <= {id}
    modifies registry
    ensures registry.Core() && id !in registry.runs && registry.grants == old(registry.grants)
  {
    var k := 0;
    while id in registry.runs
      invariant registry.Core() && EndedLater(registry.runs, id, k) && registry.grants == old(registry.grants)
      decreases if id in registry.runs then MAX_RETAINED_RUNS + 1 - |registry.runs| else 0
    {
      EndAnother(registry, id, k);
      k := k + 1;
    }
  }

  method PrunedWithGrant(id: string, capabilities: seq<string>) returns (registry: AiRunRegistry)
    requires Trim(id) != "" && Requested(capabilities) != {} && AllAllowed(Requested(capabilities))
    ensures fresh(registry) && registry.Core() && id !in registry.runs
    ensures registry.grants == map[id := Requested(capabilities)]
  {
    registry := GrantAfterFinish(id, capabilities);
    assert EndedLater(registry.runs, id, 0);
    EndOthers(registry, id);
  }

  /** A stale grant goes to the next run of the same id, of whatever kind, and is taken away when that run ends. */
  method InheritGrant(id: string, capabilities: seq<string>, kind: Kind) returns (registry: AiRunRegistry)
    requires Trim(id) != "" && Requested(capabilities) != {} && AllAllowed(Requested(capabilities))
    ensures fresh(registry) && registry.Core()
    ensures id in registry.runs && registry.runs[id] == Run(id, kind, Queued, 3, 3)
    ensures registry.grants == map[id := Requested(capabilities)]
  {
    registry := PrunedWithGrant(id, capabilities);
    var begun := registry.Begin(id, kind, 3);
  }
}
