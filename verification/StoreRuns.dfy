/**
 * Whole runs of the scheduler store: any sequence of transactions, from any owners, at any times.
 *
 * A call that fails without committing is absent from the run; a call that commits but whose answer is lost
 * is in it. So the theorems cover every pattern of store failures.
 */
module StoreRuns {
  import opened Prelude
  import opened SchedulerStore
  import opened TransactionInvariants

  datatype Op =
    | OpEnqueue(owner: Ownership, kind: PayloadKind)
    | OpClaim(ownerId: nat, lease: nat, limit: nat)
    | OpRenew(fence: Fence, lease: nat)
    | OpCancel(session: nat)
    | OpBind(fence: Fence, identity: string)
    | OpResolve(fence: Fence, outcome: Outcome)
    | OpRecover
    | OpAbandon(ownerId: nat)
    | OpResume(session: nat, owner: Ownership, kind: PayloadKind, byApproval: bool)
    | OpRemove(session: nat)
    | OpRecordError(row: Staged)
    | OpReject(row: Staged, error: string)
    | OpMark(row: Staged)
    | OpFinalize(row: Staged)

  datatype Event = Event(now: nat, op: Op)

  ghost function Apply(t: Tables, e: Event): Tables {
    match e.op
    case OpEnqueue(owner, kind) => Enqueue(t, owner, kind)
    case OpClaim(owner, lease, limit) => Claim(t, owner, e.now, lease, limit).0
    case OpRenew(f, lease) => Renew(t, f, e.now, lease).0
    case OpCancel(s) => Cancel(t, s).0
    case OpBind(f, identity) => BindRuntime(t, f, e.now, identity).0
    case OpResolve(f, outcome) => Resolve(t, f, outcome, e.now).0
    case OpRecover => var r := Recover(t, e.now); if r.Ok? then r.value else t
    case OpAbandon(owner) => var r := AbandonOwner(t, owner); if r.Ok? then r.value else t
    case OpResume(s, owner, kind, byApproval) => Resume(t, s, owner, kind, byApproval).0
    case OpRemove(s) => RemoveTerminal(t, s).0
    case OpRecordError(c) => RecordError(t, c, e.now).0
    case OpReject(c, error) => Reject(t, c, error).0
    case OpMark(c) => MarkProjected(t, c).0
    case OpFinalize(c) => Finalize(t, c).0
  }

  /** The finalizer quotes an outbox row it read before; if that row is still open, it quotes it rightly. */
  ghost predicate Honest(t: Tables, c: Staged) {
    RowMatches(t, c) ==>
        c.terminal == t.completions[c.session].terminal && c.blockedReason == t.completions[c.session].blockedReason
  }

  ghost predicate Allowed(t: Tables, e: Event) {
    e.op.OpFinalize? ==> Honest(t, e.op.row)
  }

  ghost function After(t: Tables, run: seq<Event>): Tables
    decreases |run|
  {
    if run == [] then t else After(Apply(t, run[0]), run[1..])
  }

  /** The times of a run are what the clock said, and may go back; InOrder says that they do not. */
  ghost predicate ValidRun(t: Tables, run: seq<Event>)
    decreases |run|
  {
    run == [] || (Allowed(t, run[0]) && ValidRun(Apply(t, run[0]), run[1..]))
  }

  ghost predicate InOrder(now: nat, run: seq<Event>)
    decreases |run|
  {
    run == [] || (now <= run[0].now && InOrder(run[0].now, run[1..]))
  }

  ghost function EndTime(now: nat, run: seq<Event>): nat {
    if run == [] then now else run[|run| - 1].now
  }

  // ---------------------------------------------------------------- the invariant over runs

  lemma ApplyKeeps(t: Tables, e: Event)
    requires Inv(t) && Allowed(t, e)
    ensures Inv(Apply(t, e))
  {
    match e.op
    case OpEnqueue(owner, kind) => EnqueueKeeps(t, owner, kind);
    case OpClaim(owner, lease, limit) => ClaimKeeps(t, owner, e.now, lease, limit);
    case OpRenew(f, lease) => RenewKeeps(t, f, e.now, lease);
    case OpCancel(s) => CancelKeeps(t, s);
    case OpBind(f, identity) => BindKeeps(t, f, e.now, identity);
    case OpResolve(f, outcome) => ResolveKeeps(t, f, outcome, e.now);
    case OpRecover => RecoverEachKeeps(t, Expired(t, e.now));
    case OpAbandon(owner) => RecoverEachKeeps(t, OwnedBy(t, owner));
    case OpResume(s, owner, kind, byApproval) => ResumeKeeps(t, s, owner, kind, byApproval);
    case OpRemove(s) => RemoveKeeps(t, s);
    case OpRecordError(c) => RecordErrorKeeps(t, c, e.now);
    case OpReject(c, error) => RejectKeeps(t, c, error);
    case OpMark(c) => MarkProjectedKeeps(t, c);
    case OpFinalize(c) => FinalizeKeeps(t, c);
  }

  lemma {:induction false} RunKeepsInv(t: Tables, run: seq<Event>)
    requires Inv(t) && ValidRun(t, run)
    ensures Inv(After(t, run))
    decreases |run|
  {
    if run != [] {
      ApplyKeeps(t, run[0]);
      RunKeepsInv(Apply(t, run[0]), run[1..]);
    }
  }

  lemma EmptyStoreOk()
    ensures Inv(EMPTY)
  {
  }

  // ---------------------------------------------------------------- authority is only ever lost

  predicate SameAttempt(a: Attempt, b: Attempt) {
    a.session == b.session && a.number == b.number && a.owner == b.owner && a.token == b.token
  }

  /**
   * Every running attempt was running before, under the same fence and with no authority it did not have, or is new.
   */
  ghost predicate LiveFrom(t: Tables, t': Tables, now: nat) {
    && t.nextAttempt <= t'.nextAttempt
    && forall a :: a in t'.attempts && t'.attempts[a].state.AttemptRunning? ==>
         || t.nextAttempt <= a < t'.nextAttempt
         || (a in t.attempts && NoMore(t.attempts[a], t'.attempts[a], now))
  }

  predicate NoMore(before: Attempt, after: Attempt, now: nat) {
    && SameAttempt(before, after) && before.state.AttemptRunning?
    && (LiveAttempt(before, now) || after.lease == before.lease)
  }

  lemma RecoverLive(t: Tables, rows: set<nat>, r: Result<Tables, Refusal>, now: nat)
    requires Inv(t) && RecoveredFrom(t, rows, r) && r.Ok?
    ensures LiveFrom(t, r.value, now)
  {
    var t' := r.value;
    forall a | a in t'.attempts && t'.attempts[a].state.AttemptRunning?
      ensures a in t.attempts && t'.attempts[a] == t.attempts[a]
    {
      assert a !in rows;
    }
  }

  /** One attempt row rewritten, under the same identity and with no authority it did not have. */
  lemma RewriteLive(t: Tables, t': Tables, a: nat, now: nat)
    requires a in t.attempts && a in t'.attempts
    requires t'.attempts == t.attempts[a := t'.attempts[a]] && t'.nextAttempt == t.nextAttempt
    requires t'.attempts[a].state.AttemptRunning? ==> NoMore(t.attempts[a], t'.attempts[a], now)
    ensures LiveFrom(t, t', now)
  {
  }

  lemma AssignLive(t: Tables, s: nat, owner: nat, now: nat, lease: nat)
    requires s in t.sessions
    ensures LiveFrom(t, Assign(t, s, owner, now, lease).0, now)
  {
  }

  lemma LiveTransitive(t: Tables, r: Tables, t': Tables, now: nat)
    requires LiveFrom(t, r, now) && LiveFrom(r, t', now)
    ensures LiveFrom(t, t', now)
  {
  }

  /** A claim that hands out `f`: recovery, then the assignment of the head of the queue, below the limit. */
  ghost predicate Claimed(t: Tables, owner: nat, now: nat, lease: nat, limit: nat, f: Fence) {
    Claim(t, owner, now, lease, limit).1 == Ok(Some(f))
  }

  lemma ClaimedIs(t: Tables, owner: nat, now: nat, lease: nat, limit: nat, f: Fence)
    requires Inv(t) && Claimed(t, owner, now, lease, limit, f)
    ensures Recover(t, now).Ok?
    ensures var r := Recover(t, now).value;
      && RecoveredFrom(t, Expired(t, now), Ok(r)) && |Live(r, now)| < limit
      && IsHead(r, f.session)
      && Claim(t, owner, now, lease, limit).0 == Assign(r, f.session, owner, now, lease).0
      && f == Fence(f.session, r.nextAttempt, r.sessions[f.session].attemptCount + 1, owner,
                    r.sessions[f.session].token + 1)
      && AttemptInsertable(r, f.session, f.number, f.token)
  {
    RecoverEachKeeps(t, Expired(t, now));
    var r := Recover(t, now).value;
    InsertAccepted(r, Candidate(r).value);
  }

  /** A claim that hands nothing out leaves the tables as they were, or as recovery left them. */
  lemma NoAssignment(t: Tables, owner: nat, now: nat, lease: nat, limit: nat)
    requires Inv(t) && forall f :: !Claimed(t, owner, now, lease, limit, f)
    ensures var t' := Claim(t, owner, now, lease, limit).0; t' == t || Ok(t') == Recover(t, now)
  {
    var answer := Claim(t, owner, now, lease, limit).1;
    assert answer.Ok? && answer.value.Some? ==> Claimed(t, owner, now, lease, limit, answer.value.value);
  }

  lemma ClaimLive(t: Tables, owner: nat, now: nat, lease: nat, limit: nat)
    requires Inv(t)
    ensures LiveFrom(t, Claim(t, owner, now, lease, limit).0, now)
  {
    RecoveryLive(t, Expired(t, now), now);
    if f :| Claimed(t, owner, now, lease, limit, f) {
      ClaimedIs(t, owner, now, lease, limit, f);
      var r := Recover(t, now).value;
      AssignLive(r, f.session, owner, now, lease);
      LiveTransitive(t, r, Assign(r, f.session, owner, now, lease).0, now);
    } else {
      NoAssignment(t, owner, now, lease, limit);
    }
  }

  lemma AssignGrants(r: Tables, s: nat, owner: nat, now: nat, lease: nat, f: Fence)
    requires s in r.sessions && Assign(r, s, owner, now, lease).1 == Ok(Some(f))
    ensures var t' := Assign(r, s, owner, now, lease).0;
      (Authorized(t', f, now) <==> lease > 0) && t'.nextAttempt == r.nextAttempt + 1
      && forall a :: a in r.attempts && a != f.attempt ==> a in t'.attempts && t'.attempts[a] == r.attempts[a]
  {
  }

  /** The same after recovery: the new attempt is the session's only running one, and its token is the greatest. */
  lemma AssignSupersedes(r: Tables, owner: nat, now: nat, lease: nat, f: Fence, a: nat)
    requires f.session in r.sessions && Assign(r, f.session, owner, now, lease).1 == Ok(Some(f))
    requires a in r.attempts && r.attempts[a].session == f.session && AttemptOk(r, a)
    ensures a < r.nextAttempt == f.attempt && r.attempts[a].token < f.token
    ensures a in Assign(r, f.session, owner, now, lease).0.attempts
    ensures !Assign(r, f.session, owner, now, lease).0.attempts[a].state.AttemptRunning?
  {
    assert AttemptInsertable(r, f.session, f.number, f.token);
  }

  /** A claim that hands out `f` is recovery followed by the assignment of `f`. */
  lemma ClaimIsAssign(t: Tables, owner: nat, now: nat, lease: nat, limit: nat, f: Fence)
    requires Inv(t) && Claimed(t, owner, now, lease, limit, f)
    ensures Recover(t, now).Ok? && f.session in Recover(t, now).value.sessions
    ensures Assign(Recover(t, now).value, f.session, owner, now, lease) ==
      (Claim(t, owner, now, lease, limit).0, Ok(Some(f)))
  {
    ClaimedIs(t, owner, now, lease, limit, f);
  }

  /** An earlier attempt of the claimed session has a smaller token and is not running any more. */
  lemma EarlierAttempt(t: Tables, owner: nat, now: nat, lease: nat, limit: nat, f: Fence, a: nat)
    requires Inv(t) && Claimed(t, owner, now, lease, limit, f) && a in t.attempts && t.attempts[a].session == f.session
    ensures a < t.nextAttempt == f.attempt && t.attempts[a].token < f.token
    ensures a in Claim(t, owner, now, lease, limit).0.attempts
    ensures !Claim(t, owner, now, lease, limit).0.attempts[a].state.AttemptRunning?
  {
    ClaimIsAssign(t, owner, now, lease, limit, f);
    RecoverIdentity(t, Expired(t, now), a);
    RecoveredAttemptOk(t, now, a);
    AssignSupersedes(Recover(t, now).value, owner, now, lease, f, a);
  }

  lemma RecoveredAttemptOk(t: Tables, now: nat, a: nat)
    requires Inv(t) && Recover(t, now).Ok? && a in Recover(t, now).value.attempts
    ensures AttemptOk(Recover(t, now).value, a) && Recover(t, now).value.nextAttempt == t.nextAttempt
  {
    RecoverEachKeeps(t, Expired(t, now));
  }

  /** The new fence carries authority, and a later token than any attempt its session ever made. */
  lemma ClaimGrants(t: Tables, owner: nat, now: nat, lease: nat, limit: nat, f: Fence)
    requires Inv(t) && Claimed(t, owner, now, lease, limit, f)
    ensures var t' := Claim(t, owner, now, lease, limit).0;
      && f.attempt == t.nextAttempt && t'.nextAttempt == t.nextAttempt + 1
      && (Authorized(t', f, now) <==> lease > 0)
      && (forall a :: a in t.attempts && t.attempts[a].session == f.session ==> t.attempts[a].token < f.token)
  {
    ClaimedIs(t, owner, now, lease, limit, f);
    AssignGrants(Recover(t, now).value, f.session, owner, now, lease, f);
    forall a | a in t.attempts && t.attempts[a].session == f.session ensures t.attempts[a].token < f.token {
      EarlierAttempt(t, owner, now, lease, limit, f, a);
    }
  }

  /** Recovery keeps what identifies an attempt. */
  lemma {:induction false} RecoverIdentity(t: Tables, rows: set<nat>, a: nat)
    requires a in t.attempts && RecoverEach(t, rows).Ok?
    ensures var r := RecoverEach(t, rows).value;
      a in r.attempts && r.attempts[a].session == t.attempts[a].session && r.attempts[a].token == t.attempts[a].token
    decreases |rows|
  {
    if rows != {} {
      RecoverIdentity(RecoverOne(t, First(rows)).value, rows - {First(rows)}, a);
    }
  }

  lemma ResolveLive(t: Tables, f: Fence, outcome: Outcome, now: nat)
    ensures LiveFrom(t, Resolve(t, f, outcome, now).0, now)
  {
    if Resolve(t, f, outcome, now).0 != t { RewriteLive(t, Resolve(t, f, outcome, now).0, f.attempt, now); }
  }

  lemma CloseLive(t: Tables, c: Staged, error: string, now: nat)
    ensures LiveFrom(t, Reject(t, c, error).0, now) && LiveFrom(t, Finalize(t, c).0, now)
  {
    if c.attempt in t.attempts {
      RewriteLive(t, t.(attempts := EndAttempt(t, c.attempt, Blocked)), c.attempt, now);
      RewriteLive(t, t.(attempts := EndAttempt(t, c.attempt, c.terminal)), c.attempt, now);
    }
  }

  lemma RecoveryLive(t: Tables, rows: set<nat>, now: nat)
    requires Inv(t) && forall a :: a in rows ==> a in t.attempts && t.attempts[a].state.AttemptRunning?
    ensures RecoverEach(t, rows).Ok? ==> LiveFrom(t, RecoverEach(t, rows).value, now)
  {
    RecoverEachKeeps(t, rows);
    if RecoverEach(t, rows).Ok? { RecoverLive(t, rows, RecoverEach(t, rows), now); }
  }

  lemma QuietLive(t: Tables, e: Event)
    requires e.op.OpEnqueue? || e.op.OpCancel? || e.op.OpBind? || e.op.OpResume? || e.op.OpRemove? ||
      e.op.OpRecordError? || e.op.OpMark?
    ensures LiveFrom(t, Apply(t, e), e.now)
  {
  }

  lemma RenewLive(t: Tables, f: Fence, now: nat, lease: nat)
    ensures LiveFrom(t, Renew(t, f, now, lease).0, now)
  {
    if Renew(t, f, now, lease).1 { RewriteLive(t, Renew(t, f, now, lease).0, f.attempt, now); }
  }

  lemma SameLive(t: Tables, now: nat)
    ensures LiveFrom(t, t, now)
  {
  }

  lemma ApplyLive(t: Tables, e: Event)
    requires Inv(t)
    ensures LiveFrom(t, Apply(t, e), e.now)
  {
    SameLive(t, e.now);
    match e.op
    case OpClaim(owner, lease, limit) => ClaimLive(t, owner, e.now, lease, limit);
    case OpRecover => RecoveryLive(t, Expired(t, e.now), e.now);
    case OpAbandon(owner) => RecoveryLive(t, OwnedBy(t, owner), e.now);
    case OpRenew(f, lease) => RenewLive(t, f, e.now, lease);
    case OpResolve(f, outcome) => ResolveLive(t, f, outcome, e.now);
    case OpReject(c, error) => CloseLive(t, c, error, e.now);
    case OpFinalize(c) => CloseLive(t, c, "", e.now);
    case _ => QuietLive(t, e);
  }

  /** The fence was issued at some time, and it has no authority at `now`. */
  ghost predicate Dead(t: Tables, f: Fence, now: nat) {
    && f.attempt < t.nextAttempt
    && !(f.attempt in t.attempts && AttemptMatches(t.attempts[f.attempt], f) && LiveAttempt(t.attempts[f.attempt], now))
  }

  /** While the clock does not go back, a fence that has lost its authority, in whatever way, never regains it. */
  lemma {:induction false} DeadStaysDead(t: Tables, now: nat, run: seq<Event>, f: Fence)
    requires Inv(t) && ValidRun(t, run) && InOrder(now, run) && Dead(t, f, now)
    ensures Dead(After(t, run), f, EndTime(now, run))
    decreases |run|
  {
    if run != [] {
      ApplyLive(t, run[0]);
      ApplyKeeps(t, run[0]);
      assert Dead(Apply(t, run[0]), f, run[0].now);
      DeadStaysDead(Apply(t, run[0]), run[0].now, run[1..], f);
    }
  }

  /** The fence was issued, and its attempt is running no more: it was resolved, recovered, superseded or removed. */
  ghost predicate Over(t: Tables, f: Fence) {
    && f.attempt < t.nextAttempt
    && !(f.attempt in t.attempts && AttemptMatches(t.attempts[f.attempt], f) &&
        t.attempts[f.attempt].state.AttemptRunning?)
  }

  /** Such a fence is dead at any time, and stays so whatever the clock does. */
  lemma {:induction false} OverStaysOver(t: Tables, run: seq<Event>, f: Fence)
    requires Inv(t) && ValidRun(t, run) && Over(t, f)
    ensures Over(After(t, run), f) && forall now :: Dead(After(t, run), f, now) && !Authorized(After(t, run), f, now)
    decreases |run|
  {
    if run != [] {
      ApplyLive(t, run[0]);
      ApplyKeeps(t, run[0]);
      assert Over(Apply(t, run[0]), f);
      OverStaysOver(Apply(t, run[0]), run[1..], f);
    }
  }

  ghost predicate NeverAuthorized(t: Tables, f: Fence) {
    forall run, later :: ValidRun(t, run) ==> !Authorized(After(t, run), f, later)
  }

  /**
   * A fence is dead for good, whatever the clock does, exactly if its attempt is over (or its lease never ran at all).
   * One that has only expired has its authority back when the clock is set back.
   */
  lemma DeadForGoodIff(t: Tables, f: Fence)
    requires Inv(t) && f.attempt < t.nextAttempt
    ensures NeverAuthorized(t, f) <==> Over(t, f) || t.attempts[f.attempt].lease == Some(0)
  {
    if Over(t, f) {
      forall run, later | ValidRun(t, run) ensures !Authorized(After(t, run), f, later) { OverStaysOver(t, run, f); }
    } else {
      RunningIsAuthorized(t, f);
      if t.attempts[f.attempt].lease == Some(0) {
        forall run, later | ValidRun(t, run)
          ensures !Authorized(After(t, run), f, later)
        {
          NoLeaseStays(t, run, f, later);
        }
      } else {
        assert ValidRun(t, []) && After(t, []) == t && Authorized(After(t, []), f, 0);
      }
    }
  }

  lemma RunningIsAuthorized(t: Tables, f: Fence)
    requires Inv(t) && f.attempt < t.nextAttempt && !Over(t, f)
    ensures f.attempt in t.attempts && t.attempts[f.attempt].lease.Some?
    ensures t.attempts[f.attempt].lease.value > 0 ==> Authorized(t, f, 0)
  {
    assert AttemptOk(t, f.attempt) && SessionOk(t, f.session);
  }

  /** Running, if at all, under a lease of no time: it can be neither renewed nor completed. */
  ghost predicate Unleased(t: Tables, f: Fence) { forall now :: Dead(t, f, now) }

  lemma NoLeaseStep(t: Tables, e: Event, f: Fence)
    requires Inv(t) && Unleased(t, f)
    ensures Unleased(Apply(t, e), f)
  {
    ApplyLive(t, e);
    assert Dead(t, f, e.now);
    forall now ensures Dead(Apply(t, e), f, now) {
      assert Dead(t, f, now);
    }
  }

  lemma {:induction false} NoLeaseStays(t: Tables, run: seq<Event>, f: Fence, later: nat)
    requires Inv(t) && ValidRun(t, run) && Unleased(t, f)
    ensures !Authorized(After(t, run), f, later)
    decreases |run|
  {
    if run == [] {
      assert Dead(t, f, later);
    } else {
      ApplyKeeps(t, run[0]);
      NoLeaseStep(t, run[0], f);
      NoLeaseStays(Apply(t, run[0]), run[1..], f, later);
    }
  }

  lemma ResolveEnds(t: Tables, f: Fence, outcome: Outcome, now: nat)
    requires Inv(t) && Resolve(t, f, outcome, now).1 == Ok(Applied)
    ensures Over(Resolve(t, f, outcome, now).0, f)
  {
    assert AttemptOk(t, f.attempt);
  }

  /** At most one completion of a fence is ever applied, whatever happens in between and whatever the clock does. */
  lemma AppliedAtMostOnce(t: Tables, now: nat, f: Fence, first: Outcome, run: seq<Event>, second: Outcome, later: nat)
    requires Inv(t) && Resolve(t, f, first, now).1 == Ok(Applied) && ValidRun(Resolve(t, f, first, now).0, run)
    ensures Resolve(After(Resolve(t, f, first, now).0, run), f, second, later).1 == Ok(Stale)
  {
    ResolveKeeps(t, f, first, now);
    ResolveEnds(t, f, first, now);
    OverStaysOver(Resolve(t, f, first, now).0, run, f);
  }

  /** Once a session is claimed anew, every fence issued for it before is over. */
  lemma ClaimFencesOff(t: Tables, owner: nat, now: nat, lease: nat, limit: nat, f: Fence, former: Fence)
    requires Inv(t) && Claimed(t, owner, now, lease, limit, f)
    requires former.attempt < t.nextAttempt && former.session == f.session
    ensures Over(Claim(t, owner, now, lease, limit).0, former)
  {
    ClaimGrants(t, owner, now, lease, limit, f);
    if former.attempt in t.attempts && t.attempts[former.attempt].session == f.session {
      EarlierAttempt(t, owner, now, lease, limit, f, former.attempt);
    } else {
      ClaimLive(t, owner, now, lease, limit);
    }
  }

  /** Two fences that hold authority over one session at one time are the same fence. */
  lemma OneAuthority(t: Tables, f: Fence, g: Fence, now: nat)
    requires Authorized(t, f, now) && Authorized(t, g, now) && f.session == g.session
    ensures f == g
  {
  }

  /** The row a finalizer read is either still open as it was read, or not open any more: it never misquotes. */
  lemma {:induction false} HonestStays(t: Tables, run: seq<Event>, c: Staged)
    requires Inv(t) && ValidRun(t, run) && Honest(t, c) && c.attempt < t.nextAttempt
    requires c.attempt in t.attempts ==> !t.attempts[c.attempt].state.AttemptRunning?
    ensures Honest(After(t, run), c)
    decreases |run|
  {
    if run != [] {
      ApplyKeeps(t, run[0]);
      HonestStep(t, run[0], c);
      HonestStays(Apply(t, run[0]), run[1..], c);
    }
  }

  /** If `c` is an open row afterwards, it was one before and said the same. */
  ghost predicate RowFrom(t: Tables, t': Tables, c: Staged) {
    && t.nextAttempt <= t'.nextAttempt
    && (c.attempt in t'.attempts && t'.attempts[c.attempt].state.AttemptRunning? ==>
          c.attempt >= t.nextAttempt || (c.attempt in t.attempts && t.attempts[c.attempt].state.AttemptRunning?))
    && (RowMatches(t', c) ==>
          && RowMatches(t, c) && t'.completions[c.session].terminal == t.completions[c.session].terminal
          && t'.completions[c.session].blockedReason == t.completions[c.session].blockedReason)
  }

  lemma RecoveryRow(t: Tables, rows: set<nat>, c: Staged)
    requires Inv(t) && forall a :: a in rows ==> a in t.attempts && t.attempts[a].state.AttemptRunning?
    ensures RecoverEach(t, rows).Ok? ==> RowFrom(t, RecoverEach(t, rows).value, c)
  {
    RecoverEachKeeps(t, rows);
    RecoverOutbox(t, rows);
  }

  lemma ClaimRow(t: Tables, owner: nat, now: nat, lease: nat, limit: nat, c: Staged)
    requires Inv(t)
    ensures RowFrom(t, Claim(t, owner, now, lease, limit).0, c)
  {
    RecoveryRow(t, Expired(t, now), c);
    if f :| Claimed(t, owner, now, lease, limit, f) {
      ClaimedIs(t, owner, now, lease, limit, f);
      AssignRow(t, Recover(t, now).value, f.session, owner, now, lease, c);
    } else {
      NoAssignment(t, owner, now, lease, limit);
    }
  }

  lemma AssignRow(t: Tables, r: Tables, s: nat, owner: nat, now: nat, lease: nat, c: Staged)
    requires RowFrom(t, r, c) && s in r.sessions
    ensures RowFrom(t, Assign(r, s, owner, now, lease).0, c)
  {
  }

  lemma ResolveRow(t: Tables, f: Fence, outcome: Outcome, now: nat, c: Staged)
    requires c.attempt in t.attempts ==> !t.attempts[c.attempt].state.AttemptRunning?
    ensures RowFrom(t, Resolve(t, f, outcome, now).0, c)
  {
  }

  lemma SessionRow(t: Tables, e: Event, c: Staged)
    requires e.op.OpEnqueue? || e.op.OpCancel? || e.op.OpBind? || e.op.OpResume? || e.op.OpRemove?
    ensures RowFrom(t, Apply(t, e), c)
  {
  }

  lemma ApplyRow(t: Tables, e: Event, c: Staged)
    requires Inv(t) && (c.attempt in t.attempts ==> !t.attempts[c.attempt].state.AttemptRunning?)
    ensures RowFrom(t, Apply(t, e), c)
  {
    match e.op
    case OpClaim(owner, lease, limit) => ClaimRow(t, owner, e.now, lease, limit, c);
    case OpRecover => RecoveryRow(t, Expired(t, e.now), c);
    case OpAbandon(owner) => RecoveryRow(t, OwnedBy(t, owner), c);
    case OpResolve(f, outcome) => ResolveRow(t, f, outcome, e.now, c);
    case OpReject(r, error) => RejectRow(t, r, error, c);
    case OpMark(r) => OutboxRow(t, r, e.now, c);
    case OpRecordError(r) => OutboxRow(t, r, e.now, c);
    case OpFinalize(r) => FinalizeRow(t, r, c);
    case OpRenew(f, lease) => RenewRow(t, f, e.now, lease, c);
    case _ => SessionRow(t, e, c);
  }

  lemma HonestStep(t: Tables, e: Event, c: Staged)
    requires Inv(t) && Honest(t, c) && c.attempt < t.nextAttempt
    requires c.attempt in t.attempts ==> !t.attempts[c.attempt].state.AttemptRunning?
    ensures Honest(Apply(t, e), c) && c.attempt < Apply(t, e).nextAttempt
    ensures c.attempt in Apply(t, e).attempts ==> !Apply(t, e).attempts[c.attempt].state.AttemptRunning?
  {
    ApplyRow(t, e, c);
  }

  lemma RenewRow(t: Tables, f: Fence, now: nat, lease: nat, c: Staged)
    ensures RowFrom(t, Renew(t, f, now, lease).0, c)
  {
  }

  lemma OutboxRow(t: Tables, r: Staged, now: nat, c: Staged)
    ensures RowFrom(t, MarkProjected(t, r).0, c) && RowFrom(t, RecordError(t, r, now).0, c)
  {
  }

  lemma FinalizeRow(t: Tables, r: Staged, c: Staged)
    ensures RowFrom(t, Finalize(t, r).0, c)
  {
  }

  lemma RejectRow(t: Tables, r: Staged, error: string, c: Staged)
    requires Inv(t)
    ensures RowFrom(t, Reject(t, r, error).0, c)
  {
    if CommittingUnder(t, r) { RowOfMatch(t, r); }
  }

  /** Recovery does not touch the outbox. */
  lemma {:induction false} RecoverOutbox(t: Tables, rows: set<nat>)
    ensures RecoverEach(t, rows).Ok? ==> RecoverEach(t, rows).value.completions == t.completions
    decreases |rows|
  {
    if rows != {} && First(rows) in t.attempts && RecoverOne(t, First(rows)).Ok? {
      RecoverOutbox(RecoverOne(t, First(rows)).value, rows - {First(rows)});
    }
  }

  // ---------------------------------------------------------------- capacity and order

  /** Every claim in the run asks for at most `limit` assignments at once. */
  ghost predicate ClaimsWithin(run: seq<Event>, limit: nat) {
    forall i :: 0 <= i < |run| && run[i].op.OpClaim? ==> run[i].op.limit <= limit
  }

  /** Attempts that run, with or without authority. */
  ghost function RunningAttempts(t: Tables): set<nat> { set a | a in t.attempts && t.attempts[a].state.AttemptRunning? }

  lemma LiveAreRunning(t: Tables, now: nat)
    ensures Live(t, now) <= RunningAttempts(t) && |Live(t, now)| <= |RunningAttempts(t)|
  {
    SubsetSize(Live(t, now), RunningAttempts(t));
  }

  /** After recovery every running attempt has authority. */
  lemma RecoveredAreLive(t: Tables, now: nat)
    requires Inv(t) && Recover(t, now).Ok?
    ensures RunningAttempts(Recover(t, now).value) == Live(Recover(t, now).value, now)
  {
    RecoverEachKeeps(t, Expired(t, now));
    var r := Recover(t, now).value;
    forall a | a in RunningAttempts(r) ensures a in Live(r, now) {
      assert a !in Expired(t, now) && r.attempts[a] == t.attempts[a];
      assert AttemptOk(r, a) && SessionOk(r, r.attempts[a].session);
    }
  }

  lemma CapacityStep(t: Tables, e: Event, limit: nat)
    requires Inv(t) && |RunningAttempts(t)| <= limit && (e.op.OpClaim? ==> e.op.limit <= limit)
    ensures |RunningAttempts(Apply(t, e))| <= limit
  {
    if f :| e.op.OpClaim? && Claimed(t, e.op.ownerId, e.now, e.op.lease, e.op.limit, f) {
      ClaimAddsOne(t, e.op.ownerId, e.now, e.op.lease, e.op.limit, f);
    } else {
      ApplyLive(t, e);
      NoNewAttempt(t, e);
      SubsetSize(RunningAttempts(Apply(t, e)), RunningAttempts(t));
    }
  }

  lemma ClaimAddsOne(t: Tables, owner: nat, now: nat, lease: nat, limit: nat, f: Fence)
    requires Inv(t) && Claimed(t, owner, now, lease, limit, f)
    ensures |RunningAttempts(Claim(t, owner, now, lease, limit).0)| <= limit
  {
    ClaimedIs(t, owner, now, lease, limit, f);
    RecoveredAreLive(t, now);
    var r, t' := Recover(t, now).value, Claim(t, owner, now, lease, limit).0;
    assert RunningAttempts(t') <= RunningAttempts(r) + {f.attempt};
    SubsetSize(RunningAttempts(t'), RunningAttempts(r) + {f.attempt});
  }

  lemma QuietAttempts(t: Tables, e: Event)
    requires !e.op.OpClaim? && !e.op.OpRecover? && !e.op.OpAbandon?
    ensures Apply(t, e).nextAttempt == t.nextAttempt
  {
  }

  /** Only a claim that hands out an assignment creates an attempt. */
  lemma NoNewAttempt(t: Tables, e: Event)
    requires Inv(t)
    requires forall f :: !(e.op.OpClaim? && Claimed(t, e.op.ownerId, e.now, e.op.lease, e.op.limit, f))
    ensures Apply(t, e).nextAttempt == t.nextAttempt
  {
    match e.op
    case OpClaim(owner, lease, limit) =>
      RecoverEachKeeps(t, Expired(t, e.now));
      NoAssignment(t, owner, e.now, lease, limit);
    case OpRecover => RecoverEachKeeps(t, Expired(t, e.now));
    case OpAbandon(owner) => RecoverEachKeeps(t, OwnedBy(t, owner));
    case _ => QuietAttempts(t, e);
  }

  /**
   * However many owners share the store and whatever the clock does, at most `limit` attempts run, and so no more than
   * that hold authority at any time.
   */
  lemma {:induction false} CapacityHolds(t: Tables, run: seq<Event>, limit: nat)
    requires Inv(t) && ValidRun(t, run) && |RunningAttempts(t)| <= limit && ClaimsWithin(run, limit)
    ensures |RunningAttempts(After(t, run))| <= limit && forall now :: |Live(After(t, run), now)| <= limit
    decreases |run|
  {
    forall now
      ensures |Live(After(t, run), now)| <= |RunningAttempts(After(t, run))|
    {
      LiveAreRunning(After(t, run), now);
    }
    if run != [] {
      CapacityStep(t, run[0], limit);
      ApplyKeeps(t, run[0]);
      ClaimsWithinRest(run, limit);
      CapacityHolds(Apply(t, run[0]), run[1..], limit);
    }
  }

  lemma LiveCapacityStep(t: Tables, e: Event, now: nat, limit: nat)
    requires Inv(t) && now <= e.now && |Live(t, now)| <= limit && (e.op.OpClaim? ==> e.op.limit <= limit)
    ensures |Live(Apply(t, e), e.now)| <= limit
  {
    if f :| e.op.OpClaim? && Claimed(t, e.op.ownerId, e.now, e.op.lease, e.op.limit, f) {
      ClaimAddsOne(t, e.op.ownerId, e.now, e.op.lease, e.op.limit, f);
      LiveAreRunning(Apply(t, e), e.now);
    } else {
      ApplyLive(t, e);
      NoNewAttempt(t, e);
      assert Live(t, e.now) <= Live(t, now);
      SubsetSize(Live(Apply(t, e), e.now), Live(t, now));
    }
  }

  /** If the clock does not go back, attempts whose lease had run out before the run need not be counted. */
  lemma {:induction false} LiveCapacityHolds(t: Tables, now: nat, run: seq<Event>, limit: nat)
    requires Inv(t) && ValidRun(t, run) && InOrder(now, run) && |Live(t, now)| <= limit && ClaimsWithin(run, limit)
    ensures |Live(After(t, run), EndTime(now, run))| <= limit
    decreases |run|
  {
    if run != [] {
      ClaimsWithinRest(run, limit);
      LiveCapacityStep(t, run[0], now, limit);
      ApplyKeeps(t, run[0]);
      LiveCapacityHolds(Apply(t, run[0]), run[0].now, run[1..], limit);
    }
  }

  lemma ClaimsWithinRest(run: seq<Event>, limit: nat)
    requires run != [] && ClaimsWithin(run, limit)
    ensures ClaimsWithin(run[1..], limit) && (run[0].op.OpClaim? ==> run[0].op.limit <= limit)
  {
    forall i | 0 <= i < |run[1..]| && run[1..][i].op.OpClaim? ensures run[1..][i].op.limit <= limit {
      assert run[i + 1] == run[1..][i];
    }
  }

  /** If any session is eligible, one of them is the head of the queue. */
  lemma {:induction false} HeadExists(t: Tables, s: nat)
    requires Eligible(t, s)
    ensures exists h :: IsHead(t, h)
    decreases t.sessions[s].enqueueSequence
  {
    if !IsHead(t, s) {
      var o :| Eligible(t, o) && t.sessions[o].enqueueSequence < t.sessions[s].enqueueSequence;
      HeadExists(t, o);
    }
  }

  /** A queue with a head is not answered with nothing. */
  lemma HeadIsAssigned(r: Tables, owner: nat, now: nat, lease: nat)
    requires Inv(r) && Candidate(r).Some?
    ensures Candidate(r).value in r.sessions && Assign(r, Candidate(r).value, owner, now, lease).1 != Ok(None)
  {
    assert IsHead(r, Candidate(r).value);
  }

  lemma CandidateIff(r: Tables)
    ensures Candidate(r).Some? <==> exists s :: Eligible(r, s)
  {
    if s :| Eligible(r, s) { HeadExists(r, s); }
    if s :| IsHead(r, s) { assert Eligible(r, s); }
  }

  /** A claim below capacity comes back empty-handed exactly when nothing is eligible after recovery. */
  lemma ClaimEmptyIff(t: Tables, owner: nat, now: nat, lease: nat, limit: nat)
    requires Inv(t) && Recover(t, now).Ok? && |Live(Recover(t, now).value, now)| < limit
    ensures Claim(t, owner, now, lease, limit).1 == Ok(None) <==> forall s :: !Eligible(Recover(t, now).value, s)
  {
    var r := Recover(t, now).value;
    RecoverEachKeeps(t, Expired(t, now));
    CandidateIff(r);
    if Candidate(r).Some? { HeadIsAssigned(r, owner, now, lease); }
  }
}
