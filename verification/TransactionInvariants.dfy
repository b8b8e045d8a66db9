/** What every transaction of the scheduler store keeps, and what holds over whole runs of them. */
module TransactionInvariants {
  import opened Prelude
  import opened SchedulerStore

  // ---------------------------------------------------------------- the invariant

  /** A session is Running or Cancelling exactly while it holds one running attempt with its own token and lease. */
  ghost predicate SessionOk(t: Tables, s: nat)
    requires s in t.sessions
  {
    var row := t.sessions[s];
    && s < t.nextSession && row.enqueueSequence < t.nextEnqueue
    && (row.activeAttempt.Some? <==> Active(row.state))
    && (row.activeAttempt.Some? ==>
          var a := row.activeAttempt.value;
          && a in t.attempts && t.attempts[a].session == s
          && t.attempts[a].token == row.token && t.attempts[a].number == row.attemptCount)
    && (row.state.Running? || row.state.Cancelling? ==>
          var a := row.activeAttempt.value;
          t.attempts[a].state.AttemptRunning? && row.lease.Some? && t.attempts[a].lease == row.lease)
    && (row.state.Committing? ==>
          && t.attempts[row.activeAttempt.value].state.AttemptCommitting?
          && s in t.completions && !t.completions[s].finalized)
  }

  /** No attempt outlives its session, carries a later token, or works without being its session's active attempt. */
  ghost predicate AttemptOk(t: Tables, a: nat)
    requires a in t.attempts
  {
    var row := t.attempts[a];
    && a < t.nextAttempt && row.session in t.sessions
    && row.token <= t.sessions[row.session].token && row.number <= t.sessions[row.session].attemptCount
    && (row.state.AttemptRunning? ==>
          t.sessions[row.session].activeAttempt == Some(a) && !t.sessions[row.session].state.Committing?)
    && (row.state.AttemptCommitting? ==>
          t.sessions[row.session].activeAttempt == Some(a) && t.sessions[row.session].state.Committing?)
  }

  /** An outbox row is open exactly while its session commits; afterwards the session ended as the row says. */
  ghost predicate CompletionOk(t: Tables, s: nat)
    requires s in t.completions
  {
    var row := t.completions[s];
    && s in t.sessions && (row.terminal.Succeeded? || row.terminal.Blocked?)
    && (!row.finalized ==>
          && t.sessions[s].state.Committing?
          && t.sessions[s].activeAttempt == Some(row.attempt) && t.sessions[s].token == row.token)
    && (row.finalized ==> t.sessions[s].state == row.terminal)
  }

  /** UNIQUE(session, number) and UNIQUE(session, token). */
  ghost predicate AttemptsDiffer(t: Tables, a: nat, b: nat)
    requires a in t.attempts && b in t.attempts
  {
    t.attempts[a].session == t.attempts[b].session ==>
      t.attempts[a].number != t.attempts[b].number && t.attempts[a].token != t.attempts[b].token
  }

  ghost predicate SessionsDiffer(t: Tables, r: nat, s: nat)
    requires r in t.sessions && s in t.sessions
  {
    && t.sessions[r].enqueueSequence != t.sessions[s].enqueueSequence
    && (Active(t.sessions[r].state) && Active(t.sessions[s].state) ==>
        !Conflicts(t.sessions[r].owner, t.sessions[s].owner))
  }

  ghost predicate Inv(t: Tables) {
    && (forall s :: s in t.sessions ==> SessionOk(t, s))
    && (forall a :: a in t.attempts ==> AttemptOk(t, a))
    && (forall s :: s in t.completions ==> CompletionOk(t, s))
    && (forall a, b :: a in t.attempts && b in t.attempts && a != b ==> AttemptsDiffer(t, a, b))
    && (forall r, s :: r in t.sessions && s in t.sessions && r != s ==> SessionsDiffer(t, r, s))
  }

  // ---------------------------------------------------------------- one session at a time

  /** `t'` differs from `t` only in the rows of session `s`. */
  ghost predicate OnlySession(t: Tables, t': Tables, s: nat) {
    && t.nextEnqueue <= t'.nextEnqueue && t.nextSession <= t'.nextSession && t.nextAttempt <= t'.nextAttempt
    && (forall r :: r != s ==> (r in t.sessions <==> r in t'.sessions))
    && (forall r :: r != s && r in t.sessions ==> t'.sessions[r] == t.sessions[r])
    && (forall r :: r != s ==> (r in t.completions <==> r in t'.completions))
    && (forall r :: r != s && r in t.completions ==> t'.completions[r] == t.completions[r])
    && (forall a :: a in t.attempts && t.attempts[a].session != s ==>
        a in t'.attempts && t'.attempts[a] == t.attempts[a])
    && (forall a :: a in t'.attempts && t'.attempts[a].session != s ==>
        a in t.attempts && t'.attempts[a] == t.attempts[a])
  }

  /** What has to hold of the rows of session `s` alone. */
  ghost predicate LocalInv(t: Tables, s: nat) {
    && (s in t.sessions ==> SessionOk(t, s))
    && (forall a :: a in t.attempts && t.attempts[a].session == s ==> AttemptOk(t, a))
    && (s in t.completions ==> CompletionOk(t, s))
    && (forall a, b :: a in t.attempts && b in t.attempts && a != b && t.attempts[a].session == s ==>
        AttemptsDiffer(t, a, b))
    && (forall r :: r in t.sessions && s in t.sessions && r != s ==> SessionsDiffer(t, r, s))
  }

  /** The invariant is local: a change confined to one session is checked on that session. */
  lemma LocalChange(t: Tables, t': Tables, s: nat)
    requires Inv(t) && OnlySession(t, t', s) && LocalInv(t', s)
    ensures Inv(t')
  {
    forall r | r in t'.sessions ensures SessionOk(t', r) {
      if r != s { assert SessionOk(t, r); }
    }
    forall a | a in t'.attempts ensures AttemptOk(t', a) {
      if t'.attempts[a].session != s { assert AttemptOk(t, a); }
    }
    forall r | r in t'.completions ensures CompletionOk(t', r) {
      if r != s { assert CompletionOk(t, r); }
    }
    forall a, b | a in t'.attempts && b in t'.attempts && a != b ensures AttemptsDiffer(t', a, b) {
      if t'.attempts[a].session != s && t'.attempts[b].session != s {
        assert AttemptsDiffer(t, a, b);
      } else if t'.attempts[a].session != s {
        assert AttemptsDiffer(t', b, a);
      }
    }
    forall q, r | q in t'.sessions && r in t'.sessions && q != r ensures SessionsDiffer(t', q, r) {
      if q != s && r != s {
        assert SessionsDiffer(t, q, r);
      } else if q == s {
        assert SessionsDiffer(t', r, q);
      }
    }
  }

  /** Rows of `s` changed in place: same attempts, same numbers and tokens. */
  ghost predicate InPlace(t: Tables, t': Tables, s: nat) {
    && t'.attempts.Keys == t.attempts.Keys
    && (forall a :: a in t.attempts ==>
          t'.attempts[a].session == t.attempts[a].session && t'.attempts[a].number == t.attempts[a].number
          && t'.attempts[a].token == t.attempts[a].token && t'.attempts[a].owner == t.attempts[a].owner)
    && s in t.sessions && s in t'.sessions
  }

  lemma InPlaceDiffers(t: Tables, t': Tables, s: nat)
    requires Inv(t) && InPlace(t, t', s)
    ensures forall a, b :: a in t'.attempts && b in t'.attempts && a != b ==> AttemptsDiffer(t', a, b)
  {
    forall a, b | a in t'.attempts && b in t'.attempts && a != b ensures AttemptsDiffer(t', a, b) {
      assert AttemptsDiffer(t, a, b);
    }
  }

  /** A session that keeps its queue place and owner, and does not become active, still differs from the others. */
  lemma StillDiffers(t: Tables, t': Tables, s: nat)
    requires Inv(t) && OnlySession(t, t', s) && s in t.sessions && s in t'.sessions
    requires t'.sessions[s].enqueueSequence == t.sessions[s].enqueueSequence
    requires t'.sessions[s].owner == t.sessions[s].owner
    requires Active(t'.sessions[s].state) ==> Active(t.sessions[s].state)
    ensures forall r :: r in t'.sessions && r != s ==> SessionsDiffer(t', r, s)
  {
    forall r | r in t'.sessions && r != s ensures SessionsDiffer(t', r, s) {
      assert SessionsDiffer(t, r, s);
    }
  }

  /** The rows of a working session: itself, its active attempt `a`, and its outbox row. */
  ghost predicate OnlyWork(t: Tables, t': Tables, s: nat, a: nat) {
    && s in t.sessions && t.sessions[s].activeAttempt == Some(a) && a in t.attempts && t.attempts[a].session == s
    && t'.nextEnqueue == t.nextEnqueue && t'.nextSession == t.nextSession && t'.nextAttempt == t.nextAttempt
    && s in t'.sessions && t'.sessions == t.sessions[s := t'.sessions[s]]
    && t'.sessions[s].enqueueSequence == t.sessions[s].enqueueSequence && t'.sessions[s].owner == t.sessions[s].owner
    && t'.sessions[s].token == t.sessions[s].token && t'.sessions[s].attemptCount == t.sessions[s].attemptCount
    && a in t'.attempts && t'.attempts == t.attempts[a := t'.attempts[a]]
    && t'.attempts[a].session == s && t'.attempts[a].number == t.attempts[a].number
    && t'.attempts[a].token == t.attempts[a].token && t'.attempts[a].owner == t.attempts[a].owner
    && (|| t'.completions == t.completions
        || (s in t'.completions && t'.completions == t.completions[s := t'.completions[s]]))
  }

  /** A step of a working session is checked on its own three rows. */
  lemma WorkingStep(t: Tables, t': Tables, s: nat, a: nat)
    requires Inv(t) && OnlyWork(t, t', s, a)
    requires SessionOk(t', s) && AttemptOk(t', a) && (s in t'.completions ==> CompletionOk(t', s))
    ensures Inv(t')
  {
    assert SessionOk(t, s) && Active(t.sessions[s].state);
    InPlaceDiffers(t, t', s);
    StillDiffers(t, t', s);
    forall b | b in t'.attempts && t'.attempts[b].session == s ensures AttemptOk(t', b) {
      if b != a { assert AttemptOk(t, b); }
    }
    LocalChange(t, t', s);
  }

  // ---------------------------------------------------------------- each transaction keeps it

  /** AUTOINCREMENT hands out ids that no row uses. */
  lemma FreshIds(t: Tables)
    requires Inv(t)
    ensures t.nextSession !in t.sessions && t.nextSession !in t.completions && t.nextAttempt !in t.attempts
  {
    forall s | s in t.sessions ensures s != t.nextSession { assert SessionOk(t, s); }
    forall s | s in t.completions ensures s != t.nextSession { assert CompletionOk(t, s) && SessionOk(t, s); }
    forall a | a in t.attempts ensures a != t.nextAttempt { assert AttemptOk(t, a); }
  }

  /** A session that is waiting or working has no outbox row. */
  lemma NoOutboxRow(t: Tables, s: nat)
    requires Inv(t) && s in t.sessions
    requires t.sessions[s].state.Queued? || t.sessions[s].state.Running? || t.sessions[s].state.Cancelling?
    ensures s !in t.completions
  {
    forall r | r in t.completions ensures r != s { assert CompletionOk(t, r); }
  }

  lemma EnqueueKeeps(t: Tables, owner: Ownership, kind: PayloadKind)
    requires Inv(t)
    ensures Inv(Enqueue(t, owner, kind))
  {
    var t', s := Enqueue(t, owner, kind), t.nextSession;
    FreshIds(t);
    forall a | a in t.attempts ensures t.attempts[a].session != s {
      assert AttemptOk(t, a);
    }
    forall r | r in t.sessions ensures SessionsDiffer(t', r, s) {
      assert SessionOk(t, r);
    }
    LocalChange(t, t', s);
  }

  /** Under the invariant the schema accepts the new attempt of a queued session. */
  lemma InsertAccepted(t: Tables, s: nat)
    requires Inv(t) && s in t.sessions && t.sessions[s].state == Queued
    ensures AttemptInsertable(t, s, t.sessions[s].attemptCount + 1, t.sessions[s].token + 1)
  {
    forall a | a in t.attempts && t.attempts[a].session == s
      ensures t.attempts[a].number != t.sessions[s].attemptCount + 1 && t.attempts[a].token != t.sessions[s].token + 1
      ensures !t.attempts[a].state.AttemptRunning?
    {
      assert AttemptOk(t, a) && SessionOk(t, s);
    }
  }

  lemma AssignedAttemptsDiffer(t: Tables, s: nat, owner: nat, now: nat, lease: nat, b: nat, c: nat)
    requires Inv(t) && Eligible(t, s) && t.sessions[s].attemptCount + 1 <= MAX_ATTEMPT
    requires AttemptInsertable(t, s, t.sessions[s].attemptCount + 1, t.sessions[s].token + 1)
    requires t.nextAttempt !in t.attempts
    requires var t' := Assign(t, s, owner, now, lease).0;
      b in t'.attempts && c in t'.attempts && b != c && t'.attempts[b].session == s
    ensures AttemptsDiffer(Assign(t, s, owner, now, lease).0, b, c)
  {
    var a := t.nextAttempt;
    if b != a && c != a { assert AttemptsDiffer(t, b, c); }
  }

  lemma AssignKeeps(t: Tables, s: nat, owner: nat, now: nat, lease: nat)
    requires Inv(t) && Eligible(t, s)
    ensures Inv(Assign(t, s, owner, now, lease).0)
  {
    InsertAccepted(t, s);
    if t.sessions[s].attemptCount + 1 <= MAX_ATTEMPT {
      var t', a := Assign(t, s, owner, now, lease).0, t.nextAttempt;
      assert SessionOk(t, s);
      FreshIds(t);
      NoOutboxRow(t, s);
      forall b | b in t'.attempts && t'.attempts[b].session == s ensures AttemptOk(t', b) {
        if b != a { assert AttemptOk(t, b); }
      }
      forall b, c | b in t'.attempts && c in t'.attempts && b != c && t'.attempts[b].session == s
        ensures AttemptsDiffer(t', b, c)
      {
        AssignedAttemptsDiffer(t, s, owner, now, lease, b, c);
      }
      forall r | r in t'.sessions && r != s ensures SessionsDiffer(t', r, s) {
        assert SessionsDiffer(t, r, s);
        assert Active(t.sessions[r].state) ==> !Conflicts(t.sessions[s].owner, t.sessions[r].owner);
      }
      LocalChange(t, t', s);
    }
  }

  lemma RenewKeeps(t: Tables, f: Fence, now: nat, lease: nat)
    requires Inv(t)
    ensures Inv(Renew(t, f, now, lease).0)
  {
    if f.attempt in t.attempts && AttemptMatches(t.attempts[f.attempt], f) && LiveAttempt(t.attempts[f.attempt], now) {
      var t', s, a := Renew(t, f, now, lease).0, f.session, f.attempt;
      assert AttemptOk(t, a) && SessionOk(t, s);
      NoOutboxRow(t, s);
      WorkingStep(t, t', s, a);
    }
  }

  lemma CancelKeeps(t: Tables, s: nat)
    requires Inv(t)
    ensures Inv(Cancel(t, s).0)
  {
    if s in t.sessions && (t.sessions[s].state.Queued? || t.sessions[s].state.Running?) {
      var t' := Cancel(t, s).0;
      assert SessionOk(t, s);
      InPlaceDiffers(t, t', s);
      StillDiffers(t, t', s);
      forall a | a in t'.attempts && t'.attempts[a].session == s ensures AttemptOk(t', a) {
        assert AttemptOk(t, a);
      }
      NoOutboxRow(t, s);
      LocalChange(t, t', s);
    }
  }

  lemma BindKeeps(t: Tables, f: Fence, now: nat, identity: string)
    requires Inv(t)
    ensures Inv(BindRuntime(t, f, now, identity).0)
  {
    var t' := BindRuntime(t, f, now, identity).0;
    if t' != t {
      var s := f.session;
      assert SessionOk(t, s);
      InPlaceDiffers(t, t', s);
      StillDiffers(t, t', s);
      forall a | a in t'.attempts && t'.attempts[a].session == s ensures AttemptOk(t', a) {
        assert AttemptOk(t, a);
      }
      NoOutboxRow(t, s);
      LocalChange(t, t', s);
    }
  }

  lemma TerminalizeKeeps(t: Tables, f: Fence, now: nat, state: SessionState, error: Option<string>)
    requires Inv(t) && Authorized(t, f, now) && Terminal(state)
    ensures Inv(Terminalize(t, f, state, error))
  {
    assert SessionOk(t, f.session) && AttemptOk(t, f.attempt);
    NoOutboxRow(t, f.session);
    WorkingStep(t, Terminalize(t, f, state, error), f.session, f.attempt);
  }

  lemma StageKeeps(t: Tables, f: Fence, terminal: SessionState, reason: Option<string>, now: nat)
    requires Inv(t) && Authorized(t, f, now) && (terminal.Succeeded? || terminal.Blocked?)
    ensures Inv(Stage(t, f, terminal, reason, now).0)
  {
    assert SessionOk(t, f.session) && AttemptOk(t, f.attempt);
    NoOutboxRow(t, f.session);
    WorkingStep(t, Stage(t, f, terminal, reason, now).0, f.session, f.attempt);
  }

  lemma ResolveKeeps(t: Tables, f: Fence, outcome: Outcome, now: nat)
    requires Inv(t)
    ensures Inv(Resolve(t, f, outcome, now).0)
  {
    if Authorized(t, f, now) {
      if t.sessions[f.session].state.Cancelling? {
        TerminalizeKeeps(t, f, now, Cancelled, None);
      } else {
        match outcome
        case FailedWith(error) => TerminalizeKeeps(t, f, now, Failed, Some(error));
        case BlockedWith(error) => TerminalizeKeeps(t, f, now, Blocked, Some(error));
        case CancelledOutcome => TerminalizeKeeps(t, f, now, Cancelled, None);
        case SucceededPlain => TerminalizeKeeps(t, f, now, Succeeded, None);
        case SucceededStructured(terminal, reason, matches) =>
          if matches { StageKeeps(t, f, if terminal.Blocked? then Blocked else Succeeded, reason, now); }
      }
    }
  }

  lemma RecoverOneKeeps(t: Tables, a: nat)
    requires Inv(t) && a in t.attempts && t.attempts[a].state.AttemptRunning?
    ensures RecoverOne(t, a) != Err(LostOwnership)
    ensures RecoverOne(t, a).Ok? ==>
      var t' := RecoverOne(t, a).value;
      && Inv(t') && t'.attempts.Keys == t.attempts.Keys && t'.nextAttempt == t.nextAttempt
      && t'.attempts[a].state == Interrupted
      && forall b :: b in t.attempts && b != a ==> t'.attempts[b] == t.attempts[b]
  {
    assert AttemptOk(t, a);
    var s := t.attempts[a].session;
    assert SessionOk(t, s);
    NoOutboxRow(t, s);
    if RecoverOne(t, a).Ok? {
      WorkingStep(t, RecoverOne(t, a).value, s, a);
    }
  }

  /** What recovery of `rows` is: nothing but interrupting them, unless a payload is malformed. */
  ghost predicate RecoveredFrom(t: Tables, rows: set<nat>, r: Result<Tables, Refusal>) {
    match r
    case Err(e) => e == MalformedPayload
    case Ok(t') =>
      && Inv(t') && t'.attempts.Keys == t.attempts.Keys && t'.nextAttempt == t.nextAttempt
      && (forall a :: a in rows && a in t'.attempts ==> t'.attempts[a].state == Interrupted)
      && forall b :: b in t.attempts && b !in rows ==> t'.attempts[b] == t.attempts[b]
  }

  lemma {:induction false} RecoverEachKeeps(t: Tables, rows: set<nat>)
    requires Inv(t) && forall a :: a in rows ==> a in t.attempts && t.attempts[a].state.AttemptRunning?
    ensures RecoveredFrom(t, rows, RecoverEach(t, rows))
    decreases |rows|
  {
    if rows != {} {
      var a := First(rows);
      RecoverOneKeeps(t, a);
      if RecoverOne(t, a).Ok? {
        var t' := RecoverOne(t, a).value;
        RecoverEachKeeps(t', rows - {a});
        OneMoreRecovered(t, t', a, rows, RecoverEach(t', rows - {a}));
      }
    }
  }

  lemma OneMoreRecovered(t: Tables, t': Tables, a: nat, rows: set<nat>, r: Result<Tables, Refusal>)
    requires a in rows && a in t'.attempts && t'.attempts.Keys == t.attempts.Keys && t'.nextAttempt == t.nextAttempt
    requires t'.attempts[a].state == Interrupted && forall b :: b in t.attempts && b != a ==>
      t'.attempts[b] == t.attempts[b]
    requires RecoveredFrom(t', rows - {a}, r)
    ensures RecoveredFrom(t, rows, r)
  {
  }

  /** Handing the head of the queue out is refused only for want of an attempt number. */
  lemma HandOutKeeps(r: Tables, owner: nat, now: nat, lease: nat)
    requires Inv(r) && Candidate(r).Some?
    ensures Candidate(r).value in r.sessions
    ensures var (t', answer) := Assign(r, Candidate(r).value, owner, now, lease);
            Inv(t') && (answer.Err? ==> answer.error == AttemptOverflow)
  {
    assert IsHead(r, Candidate(r).value);
    InsertAccepted(r, Candidate(r).value);
    AssignKeeps(r, Candidate(r).value, owner, now, lease);
  }

  /** A claim is refused only by a malformed payload or an exhausted attempt number, never by the schema. */
  lemma ClaimKeeps(t: Tables, owner: nat, now: nat, lease: nat, limit: nat)
    requires Inv(t)
    ensures var (t', answer) := Claim(t, owner, now, lease, limit);
            Inv(t') && (answer.Err? ==>
                t' == t && (answer.error == MalformedPayload || answer.error == AttemptOverflow))
  {
    RecoverEachKeeps(t, Expired(t, now));
    if Recover(t, now).Ok? {
      var r := Recover(t, now).value;
      if Candidate(r).Some? { HandOutKeeps(r, owner, now, lease); }
    }
  }

  lemma RowOfMatch(t: Tables, c: Staged)
    requires Inv(t) && (RowMatches(t, c) || CommittingUnder(t, c))
    ensures RowMatches(t, c) && CommittingUnder(t, c)
    ensures c.attempt in t.attempts && t.attempts[c.attempt].session == c.session
    ensures t.attempts[c.attempt].state.AttemptCommitting?
    ensures SessionOk(t, c.session) && AttemptOk(t, c.attempt) && CompletionOk(t, c.session)
  {
    if RowMatches(t, c) { assert CompletionOk(t, c.session); }
    assert SessionOk(t, c.session);
    assert CompletionOk(t, c.session);
    assert AttemptOk(t, c.attempt);
  }

  lemma OutboxRowKeeps(t: Tables, c: Staged, row: Completion)
    requires Inv(t) && RowMatches(t, c)
    requires row.attempt == c.attempt && row.token == c.token
    requires row.terminal == t.completions[c.session].terminal && !row.finalized
    ensures Inv(t.(completions := t.completions[c.session := row]))
  {
    RowOfMatch(t, c);
    WorkingStep(t, t.(completions := t.completions[c.session := row]), c.session, c.attempt);
  }

  lemma RecordErrorKeeps(t: Tables, c: Staged, now: nat)
    requires Inv(t)
    ensures Inv(RecordError(t, c, now).0)
  {
    if RowMatches(t, c) {
      OutboxRowKeeps(t, c, FailedOnce(t.completions[c.session], now));
    }
  }

  lemma MarkProjectedKeeps(t: Tables, c: Staged)
    requires Inv(t)
    ensures Inv(MarkProjected(t, c).0)
  {
    if RowMatches(t, c) { OutboxRowKeeps(t, c, t.completions[c.session].(projected := true)); }
  }

  /** Rejection finds the open row whenever it finds the committing session, and conversely. */
  lemma RejectKeeps(t: Tables, c: Staged, error: string)
    requires Inv(t)
    ensures Inv(Reject(t, c, error).0) && (Reject(t, c, error).1 == Applied <==> RowMatches(t, c))
  {
    if RowMatches(t, c) || CommittingUnder(t, c) {
      RowOfMatch(t, c);
      WorkingStep(t, Reject(t, c, error).0, c.session, c.attempt);
    }
  }

  lemma FinalizeKeeps(t: Tables, c: Staged)
    requires Inv(t) && (RowMatches(t, c) ==> c.terminal == t.completions[c.session].terminal)
    ensures Inv(Finalize(t, c).0)
    ensures Finalize(t, c).1 == Applied <==> RowMatches(t, c) && t.completions[c.session].projected
  {
    if RowMatches(t, c) {
      RowOfMatch(t, c);
      if t.completions[c.session].projected {
        WorkingStep(t, Finalize(t, c).0, c.session, c.attempt);
      }
    }
  }

  lemma ResumeKeeps(t: Tables, s: nat, owner: Ownership, kind: PayloadKind, byApproval: bool)
    requires Inv(t)
    ensures Inv(Resume(t, s, owner, kind, byApproval).0)
  {
    var t' := Resume(t, s, owner, kind, byApproval).0;
    if t' != t {
      assert SessionOk(t, s);
      InPlaceDiffers(t, t', s);
      forall r | r in t'.sessions && r != s ensures SessionsDiffer(t', r, s) {
        assert SessionOk(t, r);
      }
      forall a | a in t'.attempts && t'.attempts[a].session == s ensures AttemptOk(t', a) {
        assert AttemptOk(t, a);
      }
      LocalChange(t, t', s);
    }
  }

  lemma RemoveKeeps(t: Tables, s: nat)
    requires Inv(t)
    ensures Inv(RemoveTerminal(t, s).0)
  {
    var t' := RemoveTerminal(t, s).0;
    if t' != t {
      LocalChange(t, t', s);
    }
  }
}
