/**
 * The state machine of the scheduler's worker pool (src-tauri/src/application/execution_engine.rs).
 *
 * One step is one thing the coordinator does: a claim the store answered with an assignment, a worker channel
 * found closed, an outcome reported under its fence, a completion the store answered or failed to answer, and a
 * cancellation flag raised. The steps the store's answers decide are all here, so a run of steps stands for any
 * pattern of answers.
 */
module ExecutionPool {
  import opened Prelude
  import Store = SchedulerStore

  const MAX_EXECUTION_WORKERS: nat := 5
  const COMPLETION_RETRY_BASE: nat := 10
  const COMPLETION_RETRY_CAP: nat := 1000
  const MAX_U32: nat := 0xFFFF_FFFF
  const CHANNEL_CLOSED: Store.Outcome := Store.FailedWith("Worker channel closed before dispatch.")

  datatype WorkerState = Idle | Running | Stopped

  datatype Worker = Worker(id: nat, state: WorkerState, session: Option<nat>, completed: nat)

  datatype Assignment = Assignment(fence: Store.Fence, cancelled: bool, outcome: Option<Store.Outcome>,
                                   attempts: nat, nextAttempt: nat)

  /** `claims` and `overwrites` are history: assignments handed out, and `active` entries replaced by one. */
  datatype Pool = Pool(workers: seq<Worker>, active: map<nat, Assignment>, released: seq<nat>, claims: nat,
                       overwrites: nat)

  const IDLE_POOL: Pool :=
    Pool([Worker(1, Idle, None, 0), Worker(2, Idle, None, 0), Worker(3, Idle, None, 0), Worker(4, Idle, None, 0),
          Worker(5, Idle, None, 0)],
         map[], [], 0, 0)

  // ---------------------------------------------------------------- choosing a worker

  /** The first of the idle workers that completed the fewest sessions, among the first `n`. */
  function LeastUsed(workers: seq<Worker>, n: nat): Option<nat>
    requires n <= |workers|
  {
    if n == 0 then None
    else
      var best := LeastUsed(workers, n - 1);
      if !workers[n - 1].state.Idle? then best
      else if best.None? then Some(n - 1)
      else if best.value < |workers| && workers[n - 1].completed < workers[best.value].completed then Some(n - 1)
      else best
  }

  /** With nothing active the longest-released worker goes first; otherwise the least used one. */
  function PickWorker(p: Pool): Option<nat> {
    if p.active == map[] && p.released != [] && p.released[0] < |p.workers| && p.workers[p.released[0]].state.Idle?
    then Some(p.released[0])
    else LeastUsed(p.workers, |p.workers|)
  }

  lemma {:induction false} LeastUsedIs(workers: seq<Worker>, n: nat)
    requires n <= |workers|
    ensures LeastUsed(workers, n).None? <==> forall i :: 0 <= i < n ==> !workers[i].state.Idle?
    ensures LeastUsed(workers, n).Some? ==>
      var b := LeastUsed(workers, n).value;
      && b < n && workers[b].state.Idle?
      && (forall i :: 0 <= i < n && workers[i].state.Idle? ==> workers[b].completed <= workers[i].completed)
      && (forall i :: 0 <= i < b && workers[i].state.Idle? ==> workers[b].completed < workers[i].completed)
  {
    if n > 0 { LeastUsedIs(workers, n - 1); }
  }

  function FirstHolder(workers: seq<Worker>, s: nat, from: nat): Option<nat>
    requires from <= |workers|
    decreases |workers| - from
  {
    if from == |workers| then None
    else if workers[from].session == Some(s) then Some(from)
    else FirstHolder(workers, s, from + 1)
  }

  lemma {:induction false} FirstHolderIs(workers: seq<Worker>, s: nat, from: nat)
    requires from <= |workers|
    ensures FirstHolder(workers, s, from).None? <==> forall i :: from <= i < |workers| ==> workers[i].session != Some(s)
    ensures FirstHolder(workers, s, from).Some? ==>
      var i := FirstHolder(workers, s, from).value;
      from <= i < |workers| && workers[i].session == Some(s) && forall j :: from <= j < i ==>
          workers[j].session != Some(s)
    decreases |workers| - from
  {
    if from < |workers| { FirstHolderIs(workers, s, from + 1); }
  }

  function RemoveFirst(s: seq<nat>, x: nat): seq<nat> {
    if s == [] then [] else if s[0] == x then s[1..] else [s[0]] + RemoveFirst(s[1..], x)
  }

  // ---------------------------------------------------------------- retry delay

  function RetryDelay(attempt: nat): nat {
    Min(COMPLETION_RETRY_BASE * Pow2(Min(Max(attempt - 1, 0), 31)), COMPLETION_RETRY_CAP)
  }

  lemma {:induction false} Pow2Grows(m: nat, n: nat)
    requires m <= n
    ensures Pow2(m) <= Pow2(n) && n < Pow2(n)
    decreases n
  {
    if m < n { Pow2Grows(m, n - 1); } else if n > 0 { Pow2Grows(n - 1, n - 1); }
  }

  /**
   * Delays start at 10 ms, never shrink, double until they reach the cap, and stay there from the eighth attempt on.
   */
  lemma RetryDelayShape(a: nat, b: nat)
    ensures COMPLETION_RETRY_BASE <= RetryDelay(a) <= COMPLETION_RETRY_CAP
    ensures a <= b ==> RetryDelay(a) <= RetryDelay(b)
    ensures RetryDelay(a) == COMPLETION_RETRY_CAP <==> a >= 8
    ensures 1 <= a < 7 ==> RetryDelay(a + 1) == 2 * RetryDelay(a)
  {
    var m, n := Min(Max(a - 1, 0), 31), Min(Max(b - 1, 0), 31);
    Pow2Grows(0, m);
    if a <= b { Pow2Grows(m, n); }
    assert Pow2(7) == 128 && Pow2(6) == 64;
    if a >= 8 { Pow2Grows(7, m); } else { Pow2Grows(m, 6); }
  }

  // ---------------------------------------------------------------- steps

  datatype PoolEvent =
    | Claimed(fence: Store.Fence, now: nat)
    | ChannelClosed(worker: nat, session: nat)
    | Reported(workerId: nat, reported: Store.Fence, outcome: Store.Outcome, now: nat)
    | Resolved(session: nat)
    | Unresolved(session: nat, now: nat)
    | CancelFlagged(session: nat)

  function ClaimStep(p: Pool, i: nat, f: Store.Fence, now: nat): Pool
    requires i < |p.workers|
  {
    p.(released := RemoveFirst(p.released, i),
       active := p.active[f.session := Assignment(f, false, None, 0, now)],
       workers := p.workers[i := p.workers[i].(state := Running, session := Some(f.session))],
       claims := p.claims + 1,
       overwrites := if f.session in p.active then p.overwrites + 1 else p.overwrites)
  }

  function CloseStep(p: Pool, i: nat, s: nat): Pool
    requires i < |p.workers| && s in p.active
  {
    p.(active := p.active[s := p.active[s].(outcome := Some(CHANNEL_CLOSED))],
       workers := p.workers[i := p.workers[i].(state := Stopped)])
  }

  function ReportStep(p: Pool, s: nat, outcome: Store.Outcome, now: nat): Pool
    requires s in p.active
  {
    p.(active := p.active[s := p.active[s].(outcome := Some(outcome), nextAttempt := now)])
  }

  function ReleaseStep(p: Pool, s: nat): Pool {
    var p1 := p.(active := p.active - {s});
    match FirstHolder(p.workers, s, 0)
    case None => p1
    case Some(i) =>
      FirstHolderIs(p.workers, s, 0);
      var w := p.workers[i];
      var freed := w.(session := None, completed := w.completed + 1);
      if w.state.Stopped? then p1.(workers := p.workers[i := freed])
      else p1.(workers := p.workers[i := freed.(state := Idle)], released := p.released + [i])
  }

  function RetryStep(p: Pool, s: nat, now: nat): Pool
    requires s in p.active
  {
    var attempts := Min(p.active[s].attempts + 1, MAX_U32);
    p.(active := p.active[s := p.active[s].(attempts := attempts, nextAttempt := now + RetryDelay(attempts))])
  }

  function FlagStep(p: Pool, s: nat): Pool
    requires s in p.active
  {
    p.(active := p.active[s := p.active[s].(cancelled := true)])
  }

  /** The guard of `finish`: this worker holds this session, and the session is active under exactly this fence. */
  predicate Accepts(p: Pool, workerId: nat, f: Store.Fence) {
    && (exists i :: 0 <= i < |p.workers| && p.workers[i].id == workerId && p.workers[i].session == Some(f.session))
    && f.session in p.active && p.active[f.session].fence == f
  }

  predicate Waiting(p: Pool, s: nat) { s in p.active && p.active[s].outcome.Some? }

  predicate Enabled(p: Pool, e: PoolEvent) {
    match e
    case Claimed(_, _) => PickWorker(p).Some? && PickWorker(p).value < |p.workers|
    case ChannelClosed(i, s) =>
      i < |p.workers| && p.workers[i].session == Some(s) && p.workers[i].state.Running? && s in p.active
    case Reported(w, f, _, _) => Accepts(p, w, f)
    case Resolved(s) => Waiting(p, s)
    case Unresolved(s, _) => Waiting(p, s)
    case CancelFlagged(s) => s in p.active
  }

  function Step(p: Pool, e: PoolEvent): Pool
    requires Enabled(p, e)
  {
    match e
    case Claimed(f, now) => ClaimStep(p, PickWorker(p).value, f, now)
    case ChannelClosed(i, s) => CloseStep(p, i, s)
    case Reported(_, f, outcome, now) => ReportStep(p, f.session, outcome, now)
    case Resolved(s) => ReleaseStep(p, s)
    case Unresolved(s, now) => RetryStep(p, s, now)
    case CancelFlagged(s) => FlagStep(p, s)
  }

  ghost predicate EnabledRun(p: Pool, run: seq<PoolEvent>)
    decreases |run|
  {
    run == [] || (Enabled(p, run[0]) && EnabledRun(Step(p, run[0]), run[1..]))
  }

  ghost function Run(p: Pool, run: seq<PoolEvent>): Pool
    requires EnabledRun(p, run)
    decreases |run|
  {
    if run == [] then p else Run(Step(p, run[0]), run[1..])
  }

  lemma {:induction false} RunSnoc(p: Pool, run: seq<PoolEvent>, e: PoolEvent)
    requires EnabledRun(p, run) && Enabled(Run(p, run), e)
    ensures EnabledRun(p, run + [e]) && Run(p, run + [e]) == Step(Run(p, run), e)
    decreases |run|
  {
    if run == [] {
      assert (run + [e])[1..] == [];
    } else {
      RunSnoc(Step(p, run[0]), run[1..], e);
      assert (run + [e])[1..] == run[1..] + [e];
    }
  }

  /** `p` is what the run makes of an idle pool. */
  ghost predicate ReachedBy(p: Pool, run: seq<PoolEvent>) {
    EnabledRun(IDLE_POOL, run) && p == Run(IDLE_POOL, run)
  }

  lemma ReachedSnoc(p: Pool, run: seq<PoolEvent>, e: PoolEvent)
    requires ReachedBy(p, run) && Enabled(p, e)
    ensures ReachedBy(Step(p, e), run + [e])
  {
    RunSnoc(IDLE_POOL, run, e);
  }

  // ---------------------------------------------------------------- the invariant

  function Holders(workers: seq<Worker>): set<nat> {
    set i | 0 <= i < |workers| && workers[i].session.Some?
  }

  function TotalCompleted(workers: seq<Worker>): nat {
    if workers == [] then 0 else workers[0].completed + TotalCompleted(workers[1..])
  }

  predicate WorkerOk(w: Worker, i: nat) {
    && w.id == i + 1
    && (w.state.Idle? ==> w.session.None?)
    && (w.state.Running? ==> w.session.Some?)
  }

  ghost predicate Held(workers: seq<Worker>, s: nat) {
    exists i :: 0 <= i < |workers| && workers[i].session == Some(s)
  }

  ghost predicate ReleasedOk(p: Pool) {
    && Distinct(p.released)
    && forall k :: 0 <= k < |p.released| ==> p.released[k] < |p.workers| && p.workers[p.released[k]].state.Idle?
  }

  /** Idle workers hold nothing, and the released ones are idle and listed once. */
  ghost predicate Shape(p: Pool) {
    && |p.workers| == MAX_EXECUTION_WORKERS
    && (forall i :: 0 <= i < |p.workers| ==> WorkerOk(p.workers[i], i))
    && ReleasedOk(p)
  }

  /** Every active session is held by a worker. */
  ghost predicate Holding(p: Pool) {
    forall s :: s in p.active ==> p.active[s].fence.session == s && Held(p.workers, s)
  }

  /**
   * Two books balance: busy workers against active sessions, and claims against what became of them.
   * `overwrites` is what both are short of.
   */
  ghost predicate Books(p: Pool) {
    && |Holders(p.workers)| == |p.active| + p.overwrites
    && TotalCompleted(p.workers) + |p.active| + p.overwrites == p.claims
  }

  ghost predicate PoolInv(p: Pool) { Shape(p) && Holding(p) && Books(p) }

  /** Workers and active sessions are in bijection: one worker for each active session, and no other busy worker. */
  ghost predicate Bijection(p: Pool) {
    && (forall s :: s in p.active ==> Held(p.workers, s))
    && (forall i :: i in Holders(p.workers) ==> p.workers[i].session.value in p.active)
    && (forall i, j ::
          i in Holders(p.workers) && j in Holders(p.workers) && p.workers[i].session == p.workers[j].session ==> i == j)
  }

  lemma {:induction false} TotalUpdate(workers: seq<Worker>, i: nat, w: Worker)
    requires i < |workers|
    ensures TotalCompleted(workers[i := w]) == TotalCompleted(workers) - workers[i].completed + w.completed
  {
    if i > 0 {
      TotalUpdate(workers[1..], i - 1, w);
      assert workers[i := w][1..] == workers[1..][i - 1 := w];
    } else {
      assert workers[i := w][1..] == workers[1..];
    }
  }

  lemma {:induction false} RemoveFirstOk(s: seq<nat>, x: nat)
    requires Distinct(s)
    ensures Distinct(RemoveFirst(s, x))
    ensures forall y :: y in RemoveFirst(s, x) <==> y in s && y != x
  {
    if s != [] {
      assert Distinct(s[1..]);
      assert s == [s[0]] + s[1..];
      RemoveFirstOk(s[1..], x);
      var r := RemoveFirst(s[1..], x);
      assert s[0] !in s[1..];
      if s[0] != x {
        assert s[0] !in r;
        forall i, j | 0 <= i < j < |[s[0]] + r| ensures ([s[0]] + r)[i] != ([s[0]] + r)[j] {
          assert ([s[0]] + r)[j] == r[j - 1] && r[j - 1] in r;
          if i > 0 { assert ([s[0]] + r)[i] == r[i - 1]; }
        }
      }
    }
  }

  lemma PickIsIdle(p: Pool)
    requires PickWorker(p).Some?
    ensures PickWorker(p).value < |p.workers| && p.workers[PickWorker(p).value].state.Idle?
  {
    LeastUsedIs(p.workers, |p.workers|);
  }

  /** A worker is found whenever one is idle. */
  lemma PickFindsIdle(p: Pool)
    ensures PickWorker(p).None? ==> forall i :: 0 <= i < |p.workers| ==> !p.workers[i].state.Idle?
  {
    LeastUsedIs(p.workers, |p.workers|);
  }

  lemma ClaimShape(p: Pool, i: nat, f: Store.Fence, now: nat)
    requires Shape(p) && i < |p.workers| && p.workers[i].state.Idle?
    ensures Shape(ClaimStep(p, i, f, now))
  {
    assert WorkerOk(p.workers[i], i);
    ReleasedAfterClaim(p, ClaimStep(p, i, f, now), i);
  }

  lemma ClaimHolding(p: Pool, i: nat, f: Store.Fence, now: nat)
    requires Holding(p) && i < |p.workers| && p.workers[i].session.None?
    ensures Holding(ClaimStep(p, i, f, now))
  {
    var q := ClaimStep(p, i, f, now);
    forall s | s in q.active ensures Held(q.workers, s) {
      HeldAfter(p.workers, q.workers, i, s, f.session);
    }
  }

  lemma ClaimBooks(p: Pool, i: nat, f: Store.Fence, now: nat)
    requires Books(p) && i < |p.workers| && p.workers[i].session.None?
    ensures Books(ClaimStep(p, i, f, now))
  {
    var q := ClaimStep(p, i, f, now);
    assert Holders(q.workers) == Holders(p.workers) + {i};
    TotalUpdate(p.workers, i, q.workers[i]);
  }

  lemma ClaimKeeps(p: Pool, i: nat, f: Store.Fence, now: nat)
    requires PoolInv(p) && i < |p.workers| && p.workers[i].state.Idle?
    ensures PoolInv(ClaimStep(p, i, f, now))
  {
    assert WorkerOk(p.workers[i], i);
    ClaimShape(p, i, f, now);
    ClaimHolding(p, i, f, now);
    ClaimBooks(p, i, f, now);
  }

  lemma ReleasedAfterClaim(p: Pool, q: Pool, i: nat)
    requires ReleasedOk(p) && i < |p.workers| && |q.workers| == |p.workers| && q.released == RemoveFirst(p.released, i)
    requires forall j :: 0 <= j < |p.workers| && j != i ==> q.workers[j] == p.workers[j]
    ensures ReleasedOk(q)
  {
    RemoveFirstOk(p.released, i);
    forall k | 0 <= k < |q.released| ensures q.released[k] < |q.workers| && q.workers[q.released[k]].state.Idle? {
      assert q.released[k] in q.released;
    }
  }

  /** Worker `i`, which held nothing, now holds `fresh`: everything held stays held. */
  lemma HeldAfter(before: seq<Worker>, after: seq<Worker>, i: nat, s: nat, taken: nat)
    requires i < |before| && |after| == |before| && before[i].session.None? && after[i].session == Some(taken)
    requires forall j :: 0 <= j < |before| && j != i ==> after[j] == before[j]
    requires Held(before, s) || s == taken
    ensures Held(after, s)
  {
    if s == taken {
      assert after[i].session == Some(s);
    } else {
      var j :| 0 <= j < |before| && before[j].session == Some(s);
      assert after[j].session == Some(s);
    }
  }

  /** Changing the books of an active session changes nobody's hold. */
  lemma ActiveUpdateKeeps(p: Pool, s: nat, a: Assignment)
    requires PoolInv(p) && s in p.active && a.fence == p.active[s].fence
    ensures PoolInv(p.(active := p.active[s := a]))
  {
  }

  lemma CloseKeeps(p: Pool, i: nat, s: nat)
    requires PoolInv(p) && i < |p.workers| && p.workers[i].state.Running? && s in p.active
    ensures PoolInv(CloseStep(p, i, s))
  {
    var q := CloseStep(p, i, s);
    assert Holders(q.workers) == Holders(p.workers);
    TotalUpdate(p.workers, i, q.workers[i]);
    forall r | r in q.active ensures Held(q.workers, r) {
      var j :| 0 <= j < |p.workers| && p.workers[j].session == Some(r);
      assert q.workers[j].session == Some(r);
    }
  }

  /** Worker `i` lets go of `s`: everything else held stays held. */
  lemma HeldAfterLetGo(before: seq<Worker>, after: seq<Worker>, i: nat, s: nat, r: nat)
    requires i < |before| && |after| == |before| && before[i].session == Some(s) && r != s && Held(before, r)
    requires forall j :: 0 <= j < |before| && j != i ==> after[j] == before[j]
    ensures Held(after, r)
  {
    var j :| 0 <= j < |before| && before[j].session == Some(r);
    assert after[j].session == Some(r);
  }

  lemma ReleaseShape(p: Pool, s: nat)
    requires Shape(p)
    ensures Shape(ReleaseStep(p, s))
  {
    FirstHolderIs(p.workers, s, 0);
    if FirstHolder(p.workers, s, 0).Some? {
      var i := FirstHolder(p.workers, s, 0).value;
      assert WorkerOk(p.workers[i], i);
    }
  }

  lemma ReleaseHolding(p: Pool, s: nat)
    requires Holding(p)
    ensures Holding(ReleaseStep(p, s))
  {
    var q := ReleaseStep(p, s);
    FirstHolderIs(p.workers, s, 0);
    if FirstHolder(p.workers, s, 0).Some? {
      forall r | r in q.active ensures Held(q.workers, r) {
        HeldAfterLetGo(p.workers, q.workers, FirstHolder(p.workers, s, 0).value, s, r);
      }
    }
  }

  lemma ReleaseBooks(p: Pool, s: nat)
    requires Books(p) && s in p.active && Held(p.workers, s)
    ensures Books(ReleaseStep(p, s))
  {
    var q := ReleaseStep(p, s);
    FirstHolderIs(p.workers, s, 0);
    var i := FirstHolder(p.workers, s, 0).value;
    assert Holders(q.workers) == Holders(p.workers) - {i} && i in Holders(p.workers);
    TotalUpdate(p.workers, i, q.workers[i]);
  }

  lemma ReleaseKeeps(p: Pool, s: nat)
    requires PoolInv(p) && s in p.active
    ensures PoolInv(ReleaseStep(p, s))
  {
    ReleaseShape(p, s);
    ReleaseHolding(p, s);
    ReleaseBooks(p, s);
  }

  lemma StepKeeps(p: Pool, e: PoolEvent)
    requires PoolInv(p) && Enabled(p, e)
    ensures PoolInv(Step(p, e))
  {
    match e
    case Claimed(f, now) =>
      PickIsIdle(p);
      ClaimKeeps(p, PickWorker(p).value, f, now);
    case ChannelClosed(i, s) => CloseKeeps(p, i, s);
    case Reported(_, f, outcome, now) => ActiveUpdateKeeps(p, f.session, Step(p, e).active[f.session]);
    case Resolved(s) => ReleaseKeeps(p, s);
    case Unresolved(s, now) => ActiveUpdateKeeps(p, s, Step(p, e).active[s]);
    case CancelFlagged(s) => ActiveUpdateKeeps(p, s, Step(p, e).active[s]);
  }

  lemma IdlePoolOk()
    ensures PoolInv(IDLE_POOL)
  {
    assert Holders(IDLE_POOL.workers) == {};
    assert TotalCompleted(IDLE_POOL.workers) == 0;
  }

  lemma {:induction false} RunKeeps(p: Pool, run: seq<PoolEvent>)
    requires PoolInv(p) && EnabledRun(p, run)
    ensures PoolInv(Run(p, run))
    decreases |run|
  {
    if run != [] {
      StepKeeps(p, run[0]);
      RunKeeps(Step(p, run[0]), run[1..]);
    }
  }

  // ---------------------------------------------------------------- what follows for every reachable pool

  /** Sessions held by holders: at least as many holders as sessions, and equally many only in a bijection. */
  lemma {:induction false} HoldersCover(workers: seq<Worker>, holders: set<nat>, sessions: set<nat>)
    requires forall i :: i in holders ==> i < |workers| && workers[i].session.Some?
    requires forall s :: s in sessions ==> exists i :: i in holders && workers[i].session == Some(s)
    ensures |sessions| <= |holders|
    ensures |sessions| == |holders| ==>
      && (forall i :: i in holders ==> workers[i].session.value in sessions)
      && (forall i, j :: i in holders && j in holders && workers[i].session == workers[j].session ==> i == j)
    decreases |sessions|
  {
    if sessions == {} {
      assert |holders| == 0 ==> holders == {};
    } else {
      var s :| s in sessions;
      var b :| b in holders && workers[b].session == Some(s);
      forall r | r in sessions - {s} ensures exists i :: i in holders - {b} && workers[i].session == Some(r) {
        var i :| i in holders && workers[i].session == Some(r);
        assert i in holders - {b};
      }
      HoldersCover(workers, holders - {b}, sessions - {s});
    }
  }

  /** If the holders map one to one onto the sessions, there are equally many. */
  lemma {:induction false} BijectionCounts(workers: seq<Worker>, holders: set<nat>, sessions: set<nat>)
    requires forall i :: i in holders ==>
      i < |workers| && workers[i].session.Some? && workers[i].session.value in sessions
    requires forall s :: s in sessions ==> exists i :: i in holders && workers[i].session == Some(s)
    requires forall i, j :: i in holders && j in holders && workers[i].session == workers[j].session ==> i == j
    ensures |sessions| == |holders|
    decreases |holders|
  {
    if holders == {} {
      assert sessions == {};
    } else {
      var b :| b in holders;
      var s := workers[b].session.value;
      forall r | r in sessions - {s} ensures exists i :: i in holders - {b} && workers[i].session == Some(r) {
        var i :| i in holders && workers[i].session == Some(r);
        assert i in holders - {b};
      }
      BijectionCounts(workers, holders - {b}, sessions - {s});
    }
  }

  lemma ActiveCovered(p: Pool)
    requires Holding(p)
    ensures forall s :: s in p.active.Keys ==> exists i :: i in Holders(p.workers) && p.workers[i].session == Some(s)
  {
    forall s | s in p.active.Keys ensures exists i :: i in Holders(p.workers) && p.workers[i].session == Some(s) {
      var i :| 0 <= i < |p.workers| && p.workers[i].session == Some(s);
      assert i in Holders(p.workers);
    }
  }

  /** Busy workers and active sessions are in bijection exactly while no claim has overwritten an active session. */
  lemma BijectionIff(p: Pool)
    requires PoolInv(p)
    ensures Bijection(p) <==> p.overwrites == 0
  {
    var holders := Holders(p.workers);
    ActiveCovered(p);
    HoldersCover(p.workers, holders, p.active.Keys);
    if Bijection(p) { BijectionCounts(p.workers, holders, p.active.Keys); }
    assert |p.active.Keys| == |p.active|;
  }

  lemma {:induction false} IndexSetSize(n: nat, s: set<nat>)
    requires forall i :: i in s ==> i < n
    ensures |s| <= n
  {
    if n > 0 { IndexSetSize(n - 1, s - {n - 1}); }
  }

  /** Every overwritten session costs a worker for good: no more than `5 - overwrites` sessions are active. */
  lemma CapacityLost(p: Pool)
    requires PoolInv(p)
    ensures |p.active| + p.overwrites <= MAX_EXECUTION_WORKERS
  {
    IndexSetSize(|p.workers|, Holders(p.workers));
  }

  lemma OverwritesAfter(p: Pool, e: PoolEvent)
    requires Enabled(p, e)
    ensures Step(p, e).overwrites == p.overwrites + if e.Claimed? && e.fence.session in p.active then 1 else 0
  {
  }

  /** The claim that overwrites leaves a session active, so the last worker cannot be lost. */
  lemma OverwritesBounded(p: Pool, e: PoolEvent)
    requires PoolInv(p) && Enabled(p, e) && p.overwrites < MAX_EXECUTION_WORKERS
    ensures Step(p, e).overwrites < MAX_EXECUTION_WORKERS
  {
    OverwritesAfter(p, e);
    if e.Claimed? {
      StepKeeps(p, e);
      CapacityLost(Step(p, e));
      assert e.fence.session in Step(p, e).active;
    }
  }

  lemma {:induction false} RunOverwritesBounded(p: Pool, run: seq<PoolEvent>)
    requires PoolInv(p) && EnabledRun(p, run) && p.overwrites < MAX_EXECUTION_WORKERS
    ensures Run(p, run).overwrites < MAX_EXECUTION_WORKERS
    decreases |run|
  {
    if run != [] {
      StepKeeps(p, run[0]);
      OverwritesBounded(p, run[0]);
      RunOverwritesBounded(Step(p, run[0]), run[1..]);
    }
  }

  /** With a worker not lost, nothing active and no channel closed, an assignment can still be handed out. */
  lemma WorkerLeft(p: Pool)
    requires PoolInv(p) && p.overwrites < MAX_EXECUTION_WORKERS && p.active == map[]
    requires forall i :: 0 <= i < |p.workers| ==> !p.workers[i].state.Stopped?
    ensures PickWorker(p).Some?
  {
    PickFindsIdle(p);
    if forall i :: 0 <= i < |p.workers| ==> i in Holders(p.workers) {
      AllIndexes(|p.workers|, Holders(p.workers));
    } else {
      var i :| 0 <= i < |p.workers| && i !in Holders(p.workers);
      assert WorkerOk(p.workers[i], i);
    }
  }

  lemma {:induction false} AllIndexes(n: nat, s: set<nat>)
    requires forall i :: 0 <= i < n ==> i in s
    ensures |s| >= n
  {
    if n > 0 {
      AllIndexes(n - 1, s - {n - 1});
    }
  }

  /** One step keeps the bijection exactly when it is not a claim of a session that is still active. */
  lemma StepKeepsBijectionIff(p: Pool, e: PoolEvent)
    requires PoolInv(p) && Enabled(p, e) && Bijection(p)
    ensures Bijection(Step(p, e)) <==> !(e.Claimed? && e.fence.session in p.active)
  {
    StepKeeps(p, e);
    BijectionIff(p);
    BijectionIff(Step(p, e));
  }

  /** Every reachable pool balances its books, and is in bijection exactly while nothing has been overwritten. */
  lemma ReachablePool(p: Pool, run: seq<PoolEvent>)
    requires ReachedBy(p, run)
    ensures PoolInv(p) && |p.active| + p.overwrites <= MAX_EXECUTION_WORKERS && p.overwrites < MAX_EXECUTION_WORKERS
    ensures Bijection(p) <==> p.overwrites == 0
    ensures TotalCompleted(p.workers) + |p.active| + p.overwrites == p.claims
  {
    IdlePoolOk();
    RunKeeps(IDLE_POOL, run);
    RunOverwritesBounded(IDLE_POOL, run);
    BijectionIff(p);
    CapacityLost(p);
  }

  /** A bijection once lost never comes back, whatever the steps. */
  lemma {:induction false} BijectionNeverReturns(p: Pool, run: seq<PoolEvent>)
    requires PoolInv(p) && EnabledRun(p, run) && !Bijection(p)
    ensures !Bijection(Run(p, run))
    decreases |run|
  {
    if run != [] {
      StepKeeps(p, run[0]);
      BijectionIff(p);
      BijectionIff(Step(p, run[0]));
      BijectionNeverReturns(Step(p, run[0]), run[1..]);
    }
  }

  // ---------------------------------------------------------------- recorded outcomes

  /** Session `s` is active under `f` with `outcome` recorded, and a worker is held for it. */
  ghost predicate Recorded(p: Pool, f: Store.Fence, outcome: Store.Outcome) {
    && f.session in p.active && p.active[f.session].fence == f && p.active[f.session].outcome == Some(outcome)
    && Held(p.workers, f.session)
  }

  /** The steps that take this outcome of `s` away: an answer of the store, another outcome, or a claim of `s`. */
  predicate TakesAway(e: PoolEvent, s: nat, outcome: Store.Outcome) {
    match e
    case Resolved(r) => r == s
    case Claimed(f, _) => f.session == s
    case Reported(_, f, reported, _) => f.session == s && reported != outcome
    case ChannelClosed(_, r) => r == s && outcome != CHANNEL_CLOSED
    case _ => false
  }

  lemma EntryKeptIff(p: Pool, e: PoolEvent, s: nat, outcome: Store.Outcome)
    requires Enabled(p, e) && s in p.active && p.active[s].fence.session == s && p.active[s].outcome == Some(outcome)
    ensures var q := Step(p, e);
      (s in q.active && q.active[s].fence == p.active[s].fence && q.active[s].outcome == Some(outcome)) <==>
          !TakesAway(e, s, outcome)
  {
    match e
    case Resolved(r) => assert Step(p, e).active == p.active - {r};
    case _ =>
  }

  /** A recorded outcome stays recorded exactly through the steps that do not take it away. */
  lemma RecordedStaysIff(p: Pool, e: PoolEvent, f: Store.Fence, outcome: Store.Outcome)
    requires PoolInv(p) && Enabled(p, e) && Recorded(p, f, outcome)
    ensures Recorded(Step(p, e), f, outcome) <==> !TakesAway(e, f.session, outcome)
  {
    EntryKeptIff(p, e, f.session, outcome);
    StepKeeps(p, e);
  }

  /** The outcome is recorded before, between and after all steps of the run. */
  ghost predicate RecordedThroughout(p: Pool, run: seq<PoolEvent>, f: Store.Fence, outcome: Store.Outcome)
    requires EnabledRun(p, run)
    decreases |run|
  {
    Recorded(p, f, outcome) && (run == [] || RecordedThroughout(Step(p, run[0]), run[1..], f, outcome))
  }

  /** An outcome once recorded stays recorded throughout a run exactly if no step of the run takes it away. */
  lemma {:induction false} NeverLostIff(p: Pool, run: seq<PoolEvent>, f: Store.Fence, outcome: Store.Outcome)
    requires PoolInv(p) && EnabledRun(p, run) && Recorded(p, f, outcome)
    ensures RecordedThroughout(p, run, f, outcome) <==> forall e :: e in run ==> !TakesAway(e, f.session, outcome)
    decreases |run|
  {
    if run != [] {
      var rest := run[1..];
      StepKeeps(p, run[0]);
      RecordedStaysIff(p, run[0], f, outcome);
      assert forall e :: e in run <==> e == run[0] || e in rest;
      if Recorded(Step(p, run[0]), f, outcome) { NeverLostIff(Step(p, run[0]), rest, f, outcome); }
    }
  }

  // ---------------------------------------------------------------- the dispatch loop ends

  function NotStopped(workers: seq<Worker>): set<nat> { set i | 0 <= i < |workers| && !workers[i].state.Stopped? }

  function IdleWorkers(workers: seq<Worker>): set<nat> { set i | 0 <= i < |workers| && workers[i].state.Idle? }

  /** A successful dispatch uses up an idle worker. */
  lemma ClaimUsesIdle(p: Pool, f: Store.Fence, now: nat)
    requires PickWorker(p).Some?
    ensures PickWorker(p).value < |p.workers|
    ensures var q := ClaimStep(p, PickWorker(p).value, f, now);
      NotStopped(q.workers) == NotStopped(p.workers) && IdleWorkers(q.workers) < IdleWorkers(p.workers)
  {
    PickIsIdle(p);
    var i := PickWorker(p).value;
    var q := ClaimStep(p, i, f, now);
    assert i in IdleWorkers(p.workers) && i !in IdleWorkers(q.workers);
  }

  /** A closed channel stops a worker for good, and the release that follows starts no stopped worker again. */
  lemma CloseUsesWorker(p: Pool, i: nat, s: nat)
    requires i < |p.workers| && !p.workers[i].state.Stopped? && s in p.active
    ensures NotStopped(CloseStep(p, i, s).workers) < NotStopped(p.workers)
    ensures NotStopped(ReleaseStep(CloseStep(p, i, s), s).workers) == NotStopped(CloseStep(p, i, s).workers)
  {
    var q := CloseStep(p, i, s);
    assert i in NotStopped(p.workers) && i !in NotStopped(q.workers);
    FirstHolderIs(q.workers, s, 0);
    var r := ReleaseStep(q, s);
    assert NotStopped(r.workers) == NotStopped(q.workers);
  }

  /**
   * One turn of the dispatch loop that finds the channel closed: the claim, the failure it records, and the release.
   */
  function ClosedDispatch(p: Pool, i: nat, f: Store.Fence, now: nat): Pool
    requires i < |p.workers|
  {
    ReleaseStep(CloseStep(ClaimStep(p, i, f, now), i, f.session), f.session)
  }

  /** The worker the release of `s` will free once worker `i` holds `s` as well. */
  lemma ReleasedAfterClosing(p: Pool, i: nat, f: Store.Fence, now: nat)
    requires i < |p.workers|
    ensures var h := FirstHolder(p.workers, f.session, 0);
      var q := CloseStep(ClaimStep(p, i, f, now), i, f.session);
      FirstHolder(q.workers, f.session, 0) == if h.Some? && h.value < i then h else Some(i)
  {
    var q := CloseStep(ClaimStep(p, i, f, now), i, f.session);
    var h, k := FirstHolder(p.workers, f.session, 0), FirstHolder(q.workers, f.session, 0);
    FirstHolderIs(p.workers, f.session, 0);
    FirstHolderIs(q.workers, f.session, 0);
    assert q.workers[i].session == Some(f.session);
    assert k.Some? && k.value <= i;
    assert k.value < i ==> q.workers[k.value] == p.workers[k.value];
    assert h.Some? && h.value < i ==> q.workers[h.value] == p.workers[h.value];
  }

  /** What a release does to the idle workers: the first holder joins them unless it was stopped. */
  lemma IdleAfterRelease(q: Pool, s: nat)
    ensures var k := FirstHolder(q.workers, s, 0);
      && (k.Some? ==> k.value < |q.workers|)
      && IdleWorkers(ReleaseStep(q, s).workers) ==
         if k.Some? && !q.workers[k.value].state.Stopped? then IdleWorkers(q.workers) + {k.value}
         else IdleWorkers(q.workers)
  {
    FirstHolderIs(q.workers, s, 0);
  }

  lemma IdleAfterClose(p: Pool, i: nat, f: Store.Fence, now: nat)
    requires i < |p.workers|
    ensures var q := CloseStep(ClaimStep(p, i, f, now), i, f.session);
      IdleWorkers(q.workers) == IdleWorkers(p.workers) - {i}
  {
  }

  /** No idle worker holds a session. */
  lemma HolderNotIdle(p: Pool, s: nat)
    requires Shape(p)
    ensures var h := FirstHolder(p.workers, s, 0); h.Some? ==> h.value < |p.workers| && !p.workers[h.value].state.Idle?
  {
    FirstHolderIs(p.workers, s, 0);
    var h := FirstHolder(p.workers, s, 0);
    if h.Some? { assert WorkerOk(p.workers[h.value], h.value); }
  }

  /**
   * A hand-out to a worker whose channel is closed leaves fewer idle workers exactly when no earlier worker that
   * still runs holds the session: otherwise the release makes that one idle.
   */
  lemma ClosedDispatchUsesIdleIff(p: Pool, f: Store.Fence, now: nat)
    requires PoolInv(p) && PickWorker(p).Some? && PickWorker(p).value < |p.workers|
    ensures var i := PickWorker(p).value;
      var h := FirstHolder(p.workers, f.session, 0);
      && (h.Some? ==> h.value < |p.workers|)
      && (IdleWorkers(ClosedDispatch(p, i, f, now).workers) < IdleWorkers(p.workers)
          <==> (h.Some? && h.value < i ==> p.workers[h.value].state.Stopped?))
  {
    PickIsIdle(p);
    var i := PickWorker(p).value;
    var h := FirstHolder(p.workers, f.session, 0);
    var q := CloseStep(ClaimStep(p, i, f, now), i, f.session);
    HolderNotIdle(p, f.session);
    ReleasedAfterClosing(p, i, f, now);
    IdleAfterClose(p, i, f, now);
    IdleAfterRelease(q, f.session);
    var after := IdleWorkers(ReleaseStep(q, f.session).workers);
    assert i in IdleWorkers(p.workers);
    if h.Some? && h.value < i {
      assert q.workers[h.value] == p.workers[h.value];
      assert !p.workers[h.value].state.Stopped? ==> h.value in after && h.value !in IdleWorkers(p.workers);
      assert p.workers[h.value].state.Stopped? ==> after == IdleWorkers(p.workers) - {i};
    } else {
      assert q.workers[i].state.Stopped? && after == IdleWorkers(p.workers) - {i};
    }
  }
}
