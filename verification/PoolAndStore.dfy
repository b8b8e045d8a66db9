/**
 * The pool meets the store: which claims can overwrite an active session, and a run in which one does.
 *
 * The pool's own bookkeeping (ExecutionPool.BijectionIff) fails exactly when a claim returns a session that is
 * still active. Here the store says when that can be: never for an assignment that still has authority.
 */
module PoolAndStore {
  import opened Prelude
  import opened SchedulerStore
  import opened TransactionInvariants
  import opened StoreRuns
  import Pool = ExecutionPool

  /**
   * A claim that overwrites an active assignment has killed it: the store will answer its completion with Stale for
   * ever.
   */
  lemma OverwrittenIsDead(t: Tables, p: Pool.Pool, owner: nat, now: nat, lease: nat, limit: nat, f: Fence,
                          run: seq<Event>, outcome: Outcome, later: nat)
    requires Inv(t) && Claimed(t, owner, now, lease, limit, f)
    requires f.session in p.active && p.active[f.session].fence.session == f.session
    requires p.active[f.session].fence.attempt < t.nextAttempt
    requires ValidRun(Claim(t, owner, now, lease, limit).0, run)
    ensures var t' := Claim(t, owner, now, lease, limit).0;
      var g := p.active[f.session].fence;
      Over(t', g) && Resolve(After(t', run), g, outcome, later).1 == Ok(Stale)
  {
    ClaimFencesOff(t, owner, now, lease, limit, f, p.active[f.session].fence);
    ClaimKeeps(t, owner, now, lease, limit);
    OverStaysOver(Claim(t, owner, now, lease, limit).0, run, p.active[f.session].fence);
  }

  // ---------------------------------------------------------------- which sessions a claim cannot hand out

  /** No claim at `now` can hand out `s`: it is not queued, and recovery will not queue it. */
  ghost predicate OutOfReach(t: Tables, s: nat, now: nat) {
    && (s in t.sessions ==> !t.sessions[s].state.Queued?)
    && forall a :: a in Expired(t, now) ==> t.attempts[a].session != s
  }

  lemma RecoverOneSpares(t: Tables, a: nat, s: nat)
    requires a in t.attempts && t.attempts[a].session != s && RecoverOne(t, a).Ok?
    ensures var r := RecoverOne(t, a).value;
      && r.attempts.Keys == t.attempts.Keys
      && (forall b :: b in t.attempts ==> r.attempts[b].session == t.attempts[b].session)
      && (s in r.sessions <==> s in t.sessions) && (s in r.sessions ==> r.sessions[s] == t.sessions[s])
  {
  }

  /** Recovery of other sessions' attempts leaves a session as it was. */
  lemma {:induction false} RecoverySpares(t: Tables, rows: set<nat>, s: nat)
    requires RecoverEach(t, rows).Ok? && forall a :: a in rows && a in t.attempts ==> t.attempts[a].session != s
    ensures var r := RecoverEach(t, rows).value; s in r.sessions ==> s in t.sessions && r.sessions[s] == t.sessions[s]
    decreases |rows|
  {
    if rows != {} {
      var a := First(rows);
      RecoverOneSpares(t, a, s);
      RecoverySpares(RecoverOne(t, a).value, rows - {a}, s);
    }
  }

  lemma OutOfReachNotClaimed(t: Tables, owner: nat, now: nat, lease: nat, limit: nat, f: Fence, s: nat)
    requires Inv(t) && Claimed(t, owner, now, lease, limit, f) && OutOfReach(t, s, now)
    ensures f.session != s
  {
    ClaimedIs(t, owner, now, lease, limit, f);
    RecoverySpares(t, Expired(t, now), s);
    assert Eligible(Recover(t, now).value, f.session);
  }

  /** A session is out of reach while a fence of it has authority, and once it has been resolved. */
  lemma AuthorizedOutOfReach(t: Tables, f: Fence, now: nat)
    requires Inv(t) && Authorized(t, f, now)
    ensures OutOfReach(t, f.session, now)
  {
    forall a | a in Expired(t, now) ensures t.attempts[a].session != f.session {
      assert AttemptOk(t, a);
    }
  }

  // ---------------------------------------------------------------- whole runs of pool and store

  /**
   * One step of the coordinator and the store it claims from: a claim whose answer reaches the pool, any other
   * transaction (of this process or another, or one whose answer is lost), or a step of the pool alone.
   */
  datatype JointEvent =
    | HandOut(owner: nat, now: nat, lease: nat, limit: nat)
    | Transaction(event: Event)
    | PoolMoves(step: Pool.PoolEvent)

  ghost function Answer(t: Tables, e: JointEvent): Result<Option<Fence>, Refusal>
    requires e.HandOut?
  {
    Claim(t, e.owner, e.now, e.lease, e.limit).1
  }

  ghost predicate HandsOut(t: Tables, e: JointEvent) {
    e.HandOut? && Answer(t, e).Ok? && Answer(t, e).value.Some?
  }

  ghost predicate JointEnabled(t: Tables, p: Pool.Pool, e: JointEvent) {
    match e
    case HandOut(_, _, _, _) => Pool.PickWorker(p).Some? && Pool.PickWorker(p).value < |p.workers|
    case Transaction(event) => Allowed(t, event)
    case PoolMoves(step) => !step.Claimed? && Pool.Enabled(p, step)
  }

  ghost function NextTables(t: Tables, e: JointEvent): Tables {
    match e
    case HandOut(owner, now, lease, limit) => Claim(t, owner, now, lease, limit).0
    case Transaction(event) => Apply(t, event)
    case PoolMoves(_) => t
  }

  ghost function NextPool(t: Tables, p: Pool.Pool, e: JointEvent): Pool.Pool
    requires JointEnabled(t, p, e)
  {
    match e
    case HandOut(_, now, _, _) =>
      if HandsOut(t, e) then Pool.Step(p, Pool.Claimed(Answer(t, e).value.value, now)) else p
    case Transaction(_) => p
    case PoolMoves(step) => Pool.Step(p, step)
  }

  ghost predicate JointRun(t: Tables, p: Pool.Pool, run: seq<JointEvent>)
    decreases |run|
  {
    run == [] || (JointEnabled(t, p, run[0]) && JointRun(NextTables(t, run[0]), NextPool(t, p, run[0]), run[1..]))
  }

  ghost function PoolAfter(t: Tables, p: Pool.Pool, run: seq<JointEvent>): Pool.Pool
    requires JointRun(t, p, run)
    decreases |run|
  {
    if run == [] then p else PoolAfter(NextTables(t, run[0]), NextPool(t, p, run[0]), run[1..])
  }

  /** Every fence the pool holds was issued by the store. */
  ghost predicate Issued(t: Tables, p: Pool.Pool) {
    forall s :: s in p.active ==> p.active[s].fence.attempt < t.nextAttempt
  }

  ghost predicate JointInv(t: Tables, p: Pool.Pool) { Inv(t) && Pool.PoolInv(p) && Issued(t, p) }

  /** No step but a claim brings a fence into the pool. */
  lemma FencesStay(p: Pool.Pool, step: Pool.PoolEvent, s: nat)
    requires Pool.Enabled(p, step) && !step.Claimed? && s in Pool.Step(p, step).active
    ensures s in p.active && Pool.Step(p, step).active[s].fence == p.active[s].fence
  {
  }

  lemma JointStepKeeps(t: Tables, p: Pool.Pool, e: JointEvent)
    requires JointInv(t, p) && JointEnabled(t, p, e)
    ensures JointInv(NextTables(t, e), NextPool(t, p, e))
  {
    match e
    case HandOut(owner, now, lease, limit) =>
      ClaimKeeps(t, owner, now, lease, limit);
      ClaimLive(t, owner, now, lease, limit);
      if HandsOut(t, e) {
        var f := Answer(t, e).value.value;
        ClaimGrants(t, owner, now, lease, limit, f);
        Pool.StepKeeps(p, Pool.Claimed(f, now));
      }
    case Transaction(event) =>
      ApplyKeeps(t, event);
      ApplyLive(t, event);
    case PoolMoves(step) =>
      Pool.StepKeeps(p, step);
      forall s | s in Pool.Step(p, step).active ensures Pool.Step(p, step).active[s].fence.attempt < t.nextAttempt {
        FencesStay(p, step, s);
      }
  }

  /** Along any joint run the tables and the pool keep their invariants, and the pool holds only issued fences. */
  lemma {:induction false} JointRunKeeps(t: Tables, p: Pool.Pool, run: seq<JointEvent>)
    requires JointInv(t, p) && JointRun(t, p, run)
    ensures Pool.PoolInv(PoolAfter(t, p, run))
    ensures Pool.Bijection(PoolAfter(t, p, run)) <==> PoolAfter(t, p, run).overwrites == 0
    decreases |run|
  {
    if run == [] {
      Pool.BijectionIff(p);
    } else {
      JointStepKeeps(t, p, run[0]);
      JointRunKeeps(NextTables(t, run[0]), NextPool(t, p, run[0]), run[1..]);
    }
  }

  /** This claim hands out a session the pool still works on. */
  ghost predicate ClaimsActive(t: Tables, p: Pool.Pool, e: JointEvent) {
    HandsOut(t, e) && Answer(t, e).value.value.session in p.active
  }

  ghost predicate SomeClaimsActive(t: Tables, p: Pool.Pool, run: seq<JointEvent>)
    requires JointRun(t, p, run)
    decreases |run|
  {
    run != [] &&
        (ClaimsActive(t, p, run[0]) || SomeClaimsActive(NextTables(t, run[0]), NextPool(t, p, run[0]), run[1..]))
  }

  /** From a bijection, a joint run ends in one exactly when no claim of it handed out a session still active. */
  lemma {:induction false} JointBijectionIff(t: Tables, p: Pool.Pool, run: seq<JointEvent>)
    requires JointInv(t, p) && JointRun(t, p, run)
    ensures Pool.Bijection(PoolAfter(t, p, run)) <==> Pool.Bijection(p) && !SomeClaimsActive(t, p, run)
    decreases |run|
  {
    if run != [] {
      var e := run[0];
      JointStepKeeps(t, p, e);
      JointStepBijection(t, p, e);
      JointBijectionIff(NextTables(t, e), NextPool(t, p, e), run[1..]);
    }
  }

  lemma JointOverwrites(t: Tables, p: Pool.Pool, e: JointEvent)
    requires JointEnabled(t, p, e)
    ensures NextPool(t, p, e).overwrites == p.overwrites + if ClaimsActive(t, p, e) then 1 else 0
  {
    match e
    case HandOut(_, now, _, _) =>
      if HandsOut(t, e) { Pool.OverwritesAfter(p, Pool.Claimed(Answer(t, e).value.value, now)); }
    case Transaction(_) =>
    case PoolMoves(step) => Pool.OverwritesAfter(p, step);
  }

  lemma JointStepBijection(t: Tables, p: Pool.Pool, e: JointEvent)
    requires JointInv(t, p) && JointEnabled(t, p, e)
    ensures Pool.Bijection(NextPool(t, p, e)) <==> Pool.Bijection(p) && !ClaimsActive(t, p, e)
  {
    JointStepKeeps(t, p, e);
    JointOverwrites(t, p, e);
    Pool.BijectionIff(p);
    Pool.BijectionIff(NextPool(t, p, e));
  }

  ghost predicate InTime(t: Tables, p: Pool.Pool, now: nat) {
    forall s :: s in p.active ==> Authorized(t, p.active[s].fence, now) || OutOfReach(t, s, now)
  }

  /** Whenever the coordinator claims, every session it works on has authority, or is otherwise out of reach. */
  ghost predicate ReachedInTime(t: Tables, p: Pool.Pool, run: seq<JointEvent>)
    requires JointRun(t, p, run)
    decreases |run|
  {
    run != [] ==>
      && (run[0].HandOut? ==> InTime(t, p, run[0].now))
      && ReachedInTime(NextTables(t, run[0]), NextPool(t, p, run[0]), run[1..])
  }

  lemma HandsOutOther(t: Tables, p: Pool.Pool, e: JointEvent)
    requires JointInv(t, p) && HandsOut(t, e) && InTime(t, p, e.now)
    ensures Answer(t, e).value.value.session !in p.active
  {
    var f := Answer(t, e).value.value;
    forall s | s in p.active ensures s != f.session {
      assert p.active[s].fence.session == s;
      if Authorized(t, p.active[s].fence, e.now) { AuthorizedOutOfReach(t, p.active[s].fence, e.now); }
      OutOfReachNotClaimed(t, e.owner, e.now, e.lease, e.limit, f, s);
    }
  }

  /** So a coordinator that renews in time, from start-up and over tables of any history, never loses a worker. */
  lemma {:induction false} FreshLeasesKeepBijection(t: Tables, p: Pool.Pool, run: seq<JointEvent>)
    requires JointInv(t, p) && Pool.Bijection(p) && JointRun(t, p, run) && ReachedInTime(t, p, run)
    ensures Pool.Bijection(PoolAfter(t, p, run))
    decreases |run|
  {
    if run != [] {
      var e := run[0];
      if HandsOut(t, e) { HandsOutOther(t, p, e); }
      JointStepKeeps(t, p, e);
      JointStepBijection(t, p, e);
      FreshLeasesKeepBijection(NextTables(t, e), NextPool(t, p, e), run[1..]);
    }
  }

  /** The outcome is recorded before, between and after all steps of the joint run. */
  ghost predicate RecordedThroughout(t: Tables, p: Pool.Pool, run: seq<JointEvent>, f: Fence, outcome: Outcome)
    requires JointRun(t, p, run)
    decreases |run|
  {
    && Pool.Recorded(p, f, outcome)
    && (run != [] ==> RecordedThroughout(NextTables(t, run[0]), NextPool(t, p, run[0]), run[1..], f, outcome))
  }

  /** No claim takes an outcome away that the coordinator came in time for; the steps of the pool do as ever. */
  lemma JointRecordedIff(t: Tables, p: Pool.Pool, e: JointEvent, f: Fence, outcome: Outcome)
    requires JointInv(t, p) && JointEnabled(t, p, e) && Pool.Recorded(p, f, outcome)
    requires (e.HandOut? ==> InTime(t, p, e.now))
    ensures Pool.Recorded(NextPool(t, p, e), f, outcome)
        <==> !(e.PoolMoves? && Pool.TakesAway(e.step, f.session, outcome))
  {
    match e
    case HandOut(_, now, _, _) =>
      if HandsOut(t, e) {
        HandsOutOther(t, p, e);
        Pool.RecordedStaysIff(p, Pool.Claimed(Answer(t, e).value.value, now), f, outcome);
      }
    case Transaction(_) =>
    case PoolMoves(step) => Pool.RecordedStaysIff(p, step, f, outcome);
  }

  /**
   * While the coordinator comes in time, a recorded outcome stays recorded throughout a joint run exactly if the pool
   * neither resolves its session nor records another outcome for it: no claim takes it away.
   */
  lemma {:induction false} OutcomeKeptIff(t: Tables, p: Pool.Pool, run: seq<JointEvent>, f: Fence, outcome: Outcome)
    requires JointInv(t, p) && JointRun(t, p, run) && ReachedInTime(t, p, run) && Pool.Recorded(p, f, outcome)
    ensures RecordedThroughout(t, p, run, f, outcome)
        <==> forall e :: e in run && e.PoolMoves? ==> !Pool.TakesAway(e.step, f.session, outcome)
    decreases |run|
  {
    if run != [] {
      var e, rest := run[0], run[1..];
      JointStepKeeps(t, p, e);
      JointRecordedIff(t, p, e, f, outcome);
      assert forall d :: d in run <==> d == e || d in rest;
      if Pool.Recorded(NextPool(t, p, e), f, outcome) {
        OutcomeKeptIff(NextTables(t, e), NextPool(t, p, e), rest, f, outcome);
      }
    }
  }

  lemma IdlePoolStarts(t: Tables)
    requires Inv(t)
    ensures JointInv(t, Pool.IDLE_POOL) && Pool.Bijection(Pool.IDLE_POOL)
  {
    Pool.IdlePoolOk();
    Pool.BijectionIff(Pool.IDLE_POOL);
  }

  // ---------------------------------------------------------------- a run that loses a worker

  const NOBODY: Ownership := Ownership(None, None, None, None)
  const LEASE: nat := 30_000
  const FIRST: Fence := Fence(1, 1, 1, 1, 1)
  const SECOND: Fence := Fence(1, 2, 2, 1, 2)

  function QueuedOnce(): Tables { Enqueue(EMPTY, NOBODY, Plain) }

  function ClaimedOnce(): Tables {
    var t := QueuedOnce();
    t.(attempts := map[1 := Attempt(1, 1, 1, 1, AttemptRunning, Some(LEASE))],
       sessions := map[1 := t.sessions[1].(state := Running, attemptCount := 1, activeAttempt := Some(1), token := 1,
                                           lease := Some(LEASE))],
       nextAttempt := 2)
  }

  function RecoveredOnce(): Tables {
    var t := ClaimedOnce();
    t.(attempts := map[1 := t.attempts[1].(state := Interrupted, lease := None)],
       sessions := map[1 := t.sessions[1].(state := Queued, activeAttempt := None, lease := None)])
  }

  /** The only queued session is the head. */
  lemma OnlyHead(t: Tables)
    requires t.sessions.Keys == {1} && t.sessions[1].state == Queued
    ensures Candidate(t) == Some(1)
  {
    assert Eligible(t, 1);
    assert forall o :: Eligible(t, o) ==> o == 1;
    assert IsHead(t, 1);
  }

  lemma FirstClaim()
    ensures Claim(QueuedOnce(), 1, 0, LEASE, 5) == (ClaimedOnce(), Ok(Some(FIRST)))
  {
    var t := QueuedOnce();
    assert Expired(t, 0) == {} && Live(t, 0) == {};
    assert Recover(t, 0) == Ok(t);
    OnlyHead(t);
    assert AttemptInsertable(t, 1, 1, 1);
    assert Assign(t, 1, 1, 0, LEASE).0 == ClaimedOnce();
  }

  /** Forty seconds later, no renewal in between, the same session is claimed again under a new fence. */
  lemma SecondClaim()
    ensures Claim(ClaimedOnce(), 1, 40_000, LEASE, 5).1 == Ok(Some(SECOND))
  {
    var t, r := ClaimedOnce(), RecoveredOnce();
    var rows := Expired(t, 40_000);
    assert rows == {1};
    assert First(rows) == 1;
    assert rows - {First(rows)} == {};
    assert RecoverOne(t, 1) == Ok(r) by {
      var q := RecoverOne(t, 1).value;
      assert q.attempts == r.attempts && q.sessions == r.sessions && q.completions == r.completions;
    }
    assert RecoverEach(r, rows - {First(rows)}) == Ok(r);
    assert Recover(t, 40_000) == Ok(r);
    assert Live(r, 40_000) == {};
    OnlyHead(r);
    assert AttemptInsertable(r, 1, 2, 2);
  }

  /** The lease of the first claim has expired at forty seconds, and is good again if the clock is set back to ten. */
  lemma ClockSetBack()
    ensures Dead(ClaimedOnce(), FIRST, 40_000) && !Over(ClaimedOnce(), FIRST)
    ensures Authorized(ClaimedOnce(), FIRST, 10_000)
  {
    assert ClaimedOnce().attempts[1] == Attempt(1, 1, 1, 1, AttemptRunning, Some(LEASE));
  }

  function LosingRun(): seq<Pool.PoolEvent> {
    [Pool.Claimed(FIRST, 0), Pool.Claimed(SECOND, 40_000),
     Pool.Reported(2, SECOND, SucceededPlain, 40_001), Pool.Resolved(1)]
  }

  lemma RunOfFour(p: Pool.Pool, run: seq<Pool.PoolEvent>)
    requires |run| == 4
    requires Pool.Enabled(p, run[0])
    requires var p1 := Pool.Step(p, run[0]); Pool.Enabled(p1, run[1])
    requires var p2 := Pool.Step(Pool.Step(p, run[0]), run[1]); Pool.Enabled(p2, run[2])
    requires var p3 := Pool.Step(Pool.Step(Pool.Step(p, run[0]), run[1]), run[2]); Pool.Enabled(p3, run[3])
    ensures Pool.EnabledRun(p, run)
    ensures Pool.Run(p, run) == Pool.Step(Pool.Step(Pool.Step(Pool.Step(p, run[0]), run[1]), run[2]), run[3])
  {
    Pool.RunSnoc(p, [], run[0]);
    Pool.RunSnoc(p, [] + [run[0]], run[1]);
    Pool.RunSnoc(p, [] + [run[0]] + [run[1]], run[2]);
    Pool.RunSnoc(p, [] + [run[0]] + [run[1]] + [run[2]], run[3]);
    assert run == [] + [run[0]] + [run[1]] + [run[2]] + [run[3]];
  }

  /** Worker 1 runs session 1 under the first fence. */
  lemma AfterFirst()
    ensures Pool.Enabled(Pool.IDLE_POOL, Pool.Claimed(FIRST, 0))
    ensures var p := Pool.Step(Pool.IDLE_POOL, Pool.Claimed(FIRST, 0));
      && p == Pool.ClaimStep(Pool.IDLE_POOL, 0, FIRST, 0)
      && Pool.PickWorker(p) == Some(1)
  {
    Pool.LeastUsedIs(Pool.IDLE_POOL.workers, 5);
    var p := Pool.ClaimStep(Pool.IDLE_POOL, 0, FIRST, 0);
    assert p.workers[0].state.Running? && p.workers[1].state.Idle?;
    Pool.LeastUsedIs(p.workers, 5);
    assert 1 in p.active;
  }

  /** Workers 1 and 2 both hold session 1, the second under the fence the pool now knows. */
  lemma AfterSecond()
    ensures var p := Pool.Step(Pool.IDLE_POOL, Pool.Claimed(FIRST, 0));
      && Pool.Enabled(p, Pool.Claimed(SECOND, 40_000))
      && Pool.Step(p, Pool.Claimed(SECOND, 40_000)) == Pool.ClaimStep(p, 1, SECOND, 40_000)
    ensures var q := Pool.Step(Pool.Step(Pool.IDLE_POOL, Pool.Claimed(FIRST, 0)), Pool.Claimed(SECOND, 40_000));
      && |q.workers| == 5 && q.active.Keys == {1} && q.active[1].fence == SECOND && q.overwrites == 1
      && q.workers[0] == Pool.Worker(1, Pool.Running, Some(1), 0)
      && q.workers[1] == Pool.Worker(2, Pool.Running, Some(1), 0)
      && Pool.FirstHolder(q.workers, 1, 0) == Some(0) && Pool.Accepts(q, 2, SECOND)
  {
    AfterFirst();
    var q := Pool.Step(Pool.Step(Pool.IDLE_POOL, Pool.Claimed(FIRST, 0)), Pool.Claimed(SECOND, 40_000));
    assert q.workers[1].id == 2;
  }

  /**
   * The pool along that run: worker 1 is freed for what worker 2 finished, and worker 2 is left busy with a
   * session nobody waits for. Four workers are left of five.
   */
  lemma WorkerLost()
    ensures Pool.EnabledRun(Pool.IDLE_POOL, LosingRun())
    ensures var p := Pool.Run(Pool.IDLE_POOL, LosingRun());
      && |p.workers| == 5 && p.active == map[] && p.workers[0].state == Pool.Idle && p.workers[0].completed == 1
      && p.workers[1].state == Pool.Running && p.workers[1].session == Some(1)
      && p.overwrites == 1 && !Pool.Bijection(p)
  {
    var run := LosingRun();
    AfterFirst();
    AfterSecond();
    var p2 := Pool.Step(Pool.Step(Pool.IDLE_POOL, run[0]), run[1]);
    var p3 := Pool.Step(p2, run[2]);
    assert p3.workers == p2.workers;
    var p4 := Pool.Step(p3, run[3]);
    RunOfFour(Pool.IDLE_POOL, run);
    assert p4.active == map[];
    assert 1 in Pool.Holders(p4.workers);
  }

  function ClosedRun(): seq<Pool.PoolEvent> {
    [Pool.Claimed(FIRST, 0), Pool.Claimed(SECOND, 40_000), Pool.ChannelClosed(1, 1), Pool.Resolved(1)]
  }

  /**
   * If worker 2 is gone when it gets the second assignment, worker 1 becomes idle, and there are no fewer idle
   * workers.
   */
  lemma ClosedChannelFreesAnother()
    ensures Pool.EnabledRun(Pool.IDLE_POOL, ClosedRun())
    ensures var before := Pool.Step(Pool.IDLE_POOL, ClosedRun()[0]);
      var after := Pool.Run(Pool.IDLE_POOL, ClosedRun());
      && after == Pool.ClosedDispatch(before, 1, SECOND, 40_000)
      && Pool.IdleWorkers(before.workers) == {1, 2, 3, 4} && Pool.IdleWorkers(after.workers) == {0, 2, 3, 4}
  {
    var run := ClosedRun();
    AfterFirst();
    AfterSecond();
    var p1 := Pool.Step(Pool.IDLE_POOL, run[0]);
    var p2 := Pool.Step(p1, run[1]);
    var p3 := Pool.Step(p2, run[2]);
    assert p3.workers[0] == p2.workers[0];
    assert Pool.FirstHolder(p3.workers, 1, 0) == Some(0);
    RunOfFour(Pool.IDLE_POOL, run);
  }

  function UnansweredRun(): seq<Pool.PoolEvent> {
    [Pool.Claimed(FIRST, 0), Pool.Reported(1, FIRST, SucceededPlain, 1), Pool.Unresolved(1, 1),
     Pool.Claimed(SECOND, 40_000)]
  }

  /** An outcome is recorded, the store does not answer, and the second claim of the session takes the outcome away. */
  lemma OutcomeLost()
    ensures Pool.EnabledRun(Pool.IDLE_POOL, UnansweredRun())
    ensures var p := Pool.Step(Pool.Step(Pool.Step(Pool.IDLE_POOL, UnansweredRun()[0]), UnansweredRun()[1]),
                               UnansweredRun()[2]);
      Pool.Recorded(p, FIRST, SucceededPlain) && p.active.Keys == {1}
    ensures !Pool.Recorded(Pool.Run(Pool.IDLE_POOL, UnansweredRun()), FIRST, SucceededPlain)
  {
    var run := UnansweredRun();
    AfterFirst();
    var p1 := Pool.Step(Pool.IDLE_POOL, run[0]);
    assert p1.workers[0].id == 1 && p1.workers[0].session == Some(1);
    assert Pool.Accepts(p1, 1, FIRST);
    var p2 := Pool.Step(p1, run[1]);
    var p3 := Pool.Step(p2, run[2]);
    assert p3.workers == p1.workers && p3.workers[0].session == Some(1);
    Pool.LeastUsedIs(p3.workers, 5);
    RunOfFour(Pool.IDLE_POOL, run);
  }

  /** Session 1 is claimed anew, under fence after fence, until every worker is busy with it. */
  function ClaimedTimes(n: nat): seq<Pool.PoolEvent> {
    if n == 0 then [] else ClaimedTimes(n - 1) + [Pool.Claimed(Fence(1, n, n, 1, n), 40_000 * n)]
  }

  /** The first `n` workers hold session 1, and the others are idle. */
  ghost predicate BusyUpTo(p: Pool.Pool, n: nat) {
    && |p.workers| == 5 && p.released == [] && (n > 0 ==> p.active.Keys == {1} && p.overwrites == n - 1)
    && (n == 0 ==> p == Pool.IDLE_POOL)
    && (forall i :: 0 <= i < 5 ==> p.workers[i].completed == 0 && (p.workers[i].state.Idle? <==> i >= n))
  }

  lemma NextBusy(p: Pool.Pool, n: nat)
    requires n < 5 && BusyUpTo(p, n)
    ensures var e := Pool.Claimed(Fence(1, n + 1, n + 1, 1, n + 1), 40_000 * (n + 1));
      Pool.Enabled(p, e) && BusyUpTo(Pool.Step(p, e), n + 1)
  {
    Pool.LeastUsedIs(p.workers, 5);
    assert p.workers[n].state.Idle?;
    assert Pool.PickWorker(p) == Some(n);
  }

  lemma {:induction false} ClaimedBusy(n: nat) returns (p: Pool.Pool)
    requires n <= 5
    ensures Pool.ReachedBy(p, ClaimedTimes(n)) && BusyUpTo(p, n)
  {
    p := Pool.IDLE_POOL;
    if n > 0 {
      p := ClaimedBusy(n - 1);
      NextBusy(p, n - 1);
      var e := Pool.Claimed(Fence(1, n, n, 1, n), 40_000 * n);
      Pool.ReachedSnoc(p, ClaimedTimes(n - 1), e);
      p := Pool.Step(p, e);
    }
  }

  /** Four workers can be lost, though never five (ExecutionPool.ReachablePool). */
  lemma FourLost() returns (p: Pool.Pool)
    ensures Pool.ReachedBy(p, ClaimedTimes(5)) && p.overwrites == 4 && |p.active| == 1
  {
    p := ClaimedBusy(5);
    assert |p.active.Keys| == 1;
  }
}
