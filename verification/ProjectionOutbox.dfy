/**
 * The scheduler side of the outbox (src-tauri/src/application/execution_engine.rs, dispatch_projection and
 * projection_finished) run against the store's tables.
 *
 * Every store call may fail before committing, or commit and lose its answer; the engine may be restarted
 * between any two steps; and any transaction that is not an outbox transaction may happen in between.
 */
module ProjectionOutbox {
  import opened Prelude
  import opened SchedulerStore
  import opened TransactionInvariants
  import opened StoreRuns

  // Identifies one staged completion; the source formats these numbers into one string.
  datatype ProjectionId = ProjectionId(session: nat, attempt: nat, token: nat)

  function IdOf(c: Staged): ProjectionId { ProjectionId(c.session, c.attempt, c.token) }

  datatype ProjectorResult = Accepted | Retryable(error: string) | RejectedBy(error: string)

  // ---------------------------------------------------------------- what the coordinator decides

  datatype Dispatch = Idle | FinalizeFirst(row: Staged) | Send(row: Staged)

  /** `None` is a failed query. Projected rows are finalized before anything new is sent. */
  function DispatchAction(inFlight: Option<ProjectionId>, projected: Option<seq<Staged>>,
                          due: Option<seq<Staged>>): Dispatch {
    if inFlight.Some? || projected.None? then Idle
    else if projected.value != [] then FinalizeFirst(projected.value[0])
    else if due.None? || due.value == [] then Idle
    else Send(due.value[0])
  }

  datatype Reaction = Ignore | NoteError(error: string) | RejectRow(error: string) | MarkThenFinalize

  function ReactionTo(inFlight: Option<ProjectionId>, c: Staged, result: ProjectorResult): Reaction {
    if inFlight != Some(IdOf(c)) then Ignore
    else
      match result
      case Accepted => MarkThenFinalize
      case Retryable(error) => NoteError(error)
      case RejectedBy(error) => RejectRow(error)
  }

  // ---------------------------------------------------------------- the system

  datatype Fate = NotCommitted | AnswerLost | Answered

  function Fated<A>(fate: Fate, t: Tables, done: (Tables, A)): (Tables, Option<A>) {
    match fate
    case NotCommitted => (t, None)
    case AnswerLost => (done.0, None)
    case Answered => (done.0, Some(done.1))
  }

  /**
   * `accepted` and `sent` are history: the ids the projector has accepted, and those handed to it.
   * `staged` remembers the outcome each completion was staged with.
   */
  datatype System = System(t: Tables, now: nat, inFlight: Option<Staged>, accepted: set<ProjectionId>,
                           sent: seq<ProjectionId>, staged: map<ProjectionId, SessionState>)

  datatype Step =
    | Transaction(e: Event)
    | DispatchProjection(projectedOk: bool, dueOk: bool, finalize: Fate, channelOpen: bool)
    | ProjectionFinished(row: Staged, result: ProjectorResult, first: Fate, finalize: Fate)
    | Restart
    | ClockMoves(to: nat)

  predicate OutboxOp(op: Op) { op.OpRecordError? || op.OpReject? || op.OpMark? || op.OpFinalize? }

  function Quote(t: Tables, s: nat): Staged
    requires s in t.completions
  {
    var row := t.completions[s];
    Staged(s, row.attempt, row.token, row.terminal, row.blockedReason)
  }

  /** ORDER BY staged_at, session_id. */
  predicate Earlier(t: Tables, r: nat, s: nat)
    requires r in t.completions && s in t.completions
  {
    t.completions[r].stagedAt < t.completions[s].stagedAt ||
        (t.completions[r].stagedAt == t.completions[s].stagedAt && r <= s)
  }

  predicate ProjectedRow(row: Completion) { !row.finalized && row.projected }

  predicate DueRow(row: Completion, now: nat) { !row.finalized && !row.projected && row.nextProjectionAt <= now }

  ghost function FirstProjected(t: Tables): seq<Staged> {
    if s :| s in t.completions && ProjectedRow(t.completions[s])
            && forall r :: r in t.completions && ProjectedRow(t.completions[r]) ==> Earlier(t, s, r)
    then [Quote(t, s)] else []
  }

  ghost function FirstDue(t: Tables, now: nat): seq<Staged> {
    if s :| s in t.completions && DueRow(t.completions[s], now)
            && forall r :: r in t.completions && DueRow(t.completions[r], now) ==> Earlier(t, s, r)
    then [Quote(t, s)] else []
  }

  function FlightId(sys: System): Option<ProjectionId> {
    if sys.inFlight.Some? then Some(IdOf(sys.inFlight.value)) else None
  }

  /** Remember the outcome of every row the first time it is seen. */
  ghost function Remember(staged: map<ProjectionId, SessionState>, t: Tables): map<ProjectionId, SessionState> {
    (map s | s in t.completions :: IdOf(Quote(t, s)) := t.completions[s].terminal) + staged
  }

  ghost function Decide(sys: System, projectedOk: bool, dueOk: bool): Dispatch {
    DispatchAction(FlightId(sys), if projectedOk then Some(FirstProjected(sys.t)) else None,
                   if dueOk then Some(FirstDue(sys.t, sys.now)) else None)
  }

  ghost function AfterTransaction(sys: System, e: Event): System {
    var t' := Apply(sys.t, e);
    sys.(t := t', now := e.now, staged := Remember(sys.staged, t'))
  }

  ghost function AfterDispatch(sys: System, action: Dispatch, finalize: Fate, channelOpen: bool): System {
    match action
    case Idle => sys
    case FinalizeFirst(c) => sys.(t := Fated(finalize, sys.t, Finalize(sys.t, c)).0)
    case Send(c) => if channelOpen then sys.(inFlight := Some(c), sent := sys.sent + [IdOf(c)]) else sys
  }

  ghost function AfterError(sys: System, c: Staged, first: Fate): System {
    sys.(inFlight := None, t := Fated(first, sys.t, RecordError(sys.t, c, sys.now)).0)
  }

  ghost function AfterReject(sys: System, c: Staged, error: string, first: Fate): System {
    sys.(inFlight := None, t := Fated(first, sys.t, Reject(sys.t, c, error)).0)
  }

  ghost function AfterAccept(sys: System, c: Staged, first: Fate, finalize: Fate): System {
    var (t1, marked) := Fated(first, sys.t, MarkProjected(sys.t, c));
    sys.(inFlight := None, accepted := sys.accepted + {IdOf(c)},
         t := if marked == Some(true) then Fated(finalize, t1, Finalize(t1, c)).0 else t1)
  }

  ghost function AfterResult(sys: System, c: Staged, result: ProjectorResult, first: Fate, finalize: Fate): System {
    match ReactionTo(FlightId(sys), c, result)
    case Ignore => sys
    case NoteError(error) => AfterError(sys, c, first)
    case RejectRow(error) => AfterReject(sys, c, error, first)
    case MarkThenFinalize => AfterAccept(sys, c, first, finalize)
  }

  ghost function Next(sys: System, step: Step): System {
    match step
    case Transaction(e) => AfterTransaction(sys, e)
    case DispatchProjection(projectedOk, dueOk, finalize, channelOpen) =>
      AfterDispatch(sys, Decide(sys, projectedOk, dueOk), finalize, channelOpen)
    case ProjectionFinished(c, result, first, finalize) => AfterResult(sys, c, result, first, finalize)
    case Restart => sys.(inFlight := None)
    case ClockMoves(to) => sys.(now := to)
  }

  /** Other transactions leave the outbox alone, and the projector echoes what it was sent. The clock may go back. */
  ghost predicate Enabled(sys: System, step: Step) {
    match step
    case Transaction(e) => !OutboxOp(e.op)
    case ProjectionFinished(c, _, _, _) => FlightId(sys) == Some(IdOf(c)) ==> sys.inFlight == Some(c)
    case _ => true
  }

  // ---------------------------------------------------------------- phases

  datatype Phase = Absent | Pending | Projected | Finalized | Rejected

  /** Where a staged completion stands: its two time stamps decide, and every row stands in exactly one place. */
  function PhaseOf(t: Tables, id: ProjectionId): Phase {
    if id.session !in t.completions || t.completions[id.session].attempt != id.attempt ||
        t.completions[id.session].token != id.token
    then Absent
    else
      var row := t.completions[id.session];
      if row.finalized then (if row.projected then Finalized else Rejected)
      else if row.projected then Projected else Pending
  }

  /** How far a completion may get in one step. A row goes away only once it is closed. */
  predicate Advance(p: Phase, q: Phase) {
    || p == q
    || (p.Absent? && q.Pending?)
    || (p.Pending? && !q.Absent?)
    || (p.Projected? && q.Finalized?)
    || ((p.Finalized? || p.Rejected?) && q.Absent?)
  }

  ghost predicate FlightOk(sys: System) {
    sys.inFlight.Some? ==> PhaseOf(sys.t, IdOf(sys.inFlight.value)) == Pending && Honest(sys.t, sys.inFlight.value)
  }

  /**
   * A projected row was accepted, a row that was not rejected still says what it was staged with, and the session
   * followed.
   */
  ghost predicate RowHistoryOk(sys: System, s: nat)
    requires s in sys.t.completions
  {
    var row := sys.t.completions[s];
    var id := IdOf(Quote(sys.t, s));
    && id in sys.staged
    && (row.projected ==> id in sys.accepted)
    && (PhaseOf(sys.t, id) != Rejected ==> row.terminal == sys.staged[id])
    && (PhaseOf(sys.t, id) == Rejected ==> row.terminal == Blocked)
  }

  ghost predicate SysInv(sys: System) {
    Inv(sys.t) && FlightOk(sys) && HistoryOk(sys)
  }

  ghost predicate HistoryOk(sys: System) {
    && (forall s :: s in sys.t.completions ==> RowHistoryOk(sys, s))
    && (forall id :: id in sys.staged ==> Issued(sys.t, id))
  }

  // ---------------------------------------------------------------- other transactions and the outbox

  /** `t'` has the rows of `t`, less some closed ones, plus some fresh ones of attempts that were still running. */
  ghost predicate RowsFrom(t: Tables, t': Tables) {
    && (forall s :: s in t.completions && !t.completions[s].finalized ==> s in t'.completions)
    && (forall s :: s in t.completions && s in t'.completions ==> t'.completions[s] == t.completions[s])
    && (forall s :: s in t'.completions && s !in t.completions ==>
          && !t'.completions[s].finalized && !t'.completions[s].projected
          && t'.completions[s].attempt in t.attempts && t.attempts[t'.completions[s].attempt].state.AttemptRunning?)
  }

  lemma ResolveRows(t: Tables, f: Fence, outcome: Outcome, now: nat)
    requires Inv(t)
    ensures RowsFrom(t, Resolve(t, f, outcome, now).0)
  {
  }

  lemma ResumeRows(t: Tables, s: nat, owner: Ownership, kind: PayloadKind, byApproval: bool)
    requires Inv(t)
    ensures RowsFrom(t, Resume(t, s, owner, kind, byApproval).0)
  {
    if s in t.completions { assert CompletionOk(t, s); }
  }

  lemma RemoveRows(t: Tables, s: nat)
    requires Inv(t)
    ensures RowsFrom(t, RemoveTerminal(t, s).0)
  {
    if s in t.completions { assert CompletionOk(t, s); }
  }

  lemma ClaimRows(t: Tables, owner: nat, now: nat, lease: nat, limit: nat)
    ensures Claim(t, owner, now, lease, limit).0.completions == t.completions
  {
    RecoverOutbox(t, Expired(t, now));
  }

  lemma QuietRows(t: Tables, e: Event)
    requires e.op.OpEnqueue? || e.op.OpRenew? || e.op.OpCancel? || e.op.OpBind?
    ensures Apply(t, e).completions == t.completions
  {
  }

  lemma SameRows(t: Tables, t': Tables)
    requires t'.completions == t.completions
    ensures RowsFrom(t, t')
  {
  }

  lemma TransactionRows(t: Tables, e: Event)
    requires Inv(t) && !OutboxOp(e.op)
    ensures RowsFrom(t, Apply(t, e))
  {
    if e.op.OpResolve? {
      ResolveRows(t, e.op.fence, e.op.outcome, e.now);
    } else if e.op.OpResume? || e.op.OpRemove? {
      LeavingRows(t, e);
    } else {
      RowsStay(t, e);
      SameRows(t, Apply(t, e));
    }
  }

  lemma LeavingRows(t: Tables, e: Event)
    requires Inv(t) && (e.op.OpResume? || e.op.OpRemove?)
    ensures RowsFrom(t, Apply(t, e))
  {
    if e.op.OpResume? {
      ResumeRows(t, e.op.session, e.op.owner, e.op.kind, e.op.byApproval);
    } else {
      RemoveRows(t, e.op.session);
    }
  }

  /** Claims and recoveries leave the rows alone, and so do the transactions that are not about outcomes. */
  lemma RowsStay(t: Tables, e: Event)
    requires !OutboxOp(e.op) && !e.op.OpResolve? && !e.op.OpResume? && !e.op.OpRemove?
    ensures Apply(t, e).completions == t.completions
  {
    match e.op
    case OpClaim(owner, lease, limit) => ClaimRows(t, owner, e.now, lease, limit);
    case OpRecover => RecoverOutbox(t, Expired(t, e.now));
    case OpAbandon(owner) => RecoverOutbox(t, OwnedBy(t, owner));
    case _ => QuietRows(t, e);
  }

  /** What is known of an id that has been staged: its attempt was issued and is over. */
  ghost predicate Issued(t: Tables, id: ProjectionId) {
    id.attempt < t.nextAttempt && (id.attempt in t.attempts ==> !t.attempts[id.attempt].state.AttemptRunning?)
  }

  lemma IssuedStays(t: Tables, e: Event, id: ProjectionId)
    requires Inv(t) && Issued(t, id)
    ensures Issued(Apply(t, e), id)
  {
    ApplyRow(t, e, Staged(id.session, id.attempt, id.token, Succeeded, None));
  }

  lemma StagedIsIssued(t: Tables, s: nat)
    requires Inv(t) && s in t.completions && !t.completions[s].finalized
    ensures Issued(t, IdOf(Quote(t, s)))
  {
    assert CompletionOk(t, s) && SessionOk(t, s);
    assert AttemptOk(t, t.completions[s].attempt);
  }

  lemma TransactionPhase(t: Tables, e: Event, id: ProjectionId)
    requires Inv(t) && !OutboxOp(e.op)
    ensures Advance(PhaseOf(t, id), PhaseOf(Apply(t, e), id))
    ensures Issued(t, id) && PhaseOf(t, id).Absent? ==> PhaseOf(Apply(t, e), id).Absent?
    ensures PhaseOf(t, id).Pending? || PhaseOf(t, id).Projected? ==> PhaseOf(Apply(t, e), id) == PhaseOf(t, id)
  {
    TransactionRows(t, e);
  }

  /** `sys'` differs from `sys` by a transaction that did not touch the outbox but for fresh and dropped rows. */
  ghost predicate Followed(sys: System, sys': System) {
    RowsFrom(sys.t, sys'.t) && sys'.accepted == sys.accepted && sys'.staged == Remember(sys.staged, sys'.t)
  }

  lemma OldRowHistory(sys: System, sys': System, s: nat)
    requires HistoryOk(sys) && Followed(sys, sys') && s in sys.t.completions && s in sys'.t.completions
    ensures RowHistoryOk(sys', s)
  {
    assert RowHistoryOk(sys, s);
  }

  lemma NewRowHistory(sys: System, sys': System, s: nat)
    requires HistoryOk(sys) && Followed(sys, sys') && s !in sys.t.completions && s in sys'.t.completions
    ensures RowHistoryOk(sys', s)
  {
    var id := IdOf(Quote(sys'.t, s));
    assert !Issued(sys.t, id);
    assert id !in sys.staged;
  }

  lemma TransactionHistory(sys: System, e: Event, s: nat)
    requires SysInv(sys) && Enabled(sys, Transaction(e)) && s in Apply(sys.t, e).completions
    ensures RowHistoryOk(AfterTransaction(sys, e), s)
  {
    TransactionRows(sys.t, e);
    if s in sys.t.completions {
      OldRowHistory(sys, AfterTransaction(sys, e), s);
    } else {
      NewRowHistory(sys, AfterTransaction(sys, e), s);
    }
  }

  lemma TransactionIssued(t: Tables, e: Event, s: nat)
    requires Inv(t) && !OutboxOp(e.op) && Allowed(t, e) && s in Apply(t, e).completions
    requires s in t.completions ==> Issued(t, IdOf(Quote(t, s)))
    ensures Issued(Apply(t, e), IdOf(Quote(Apply(t, e), s)))
  {
    TransactionRows(t, e);
    if s in t.completions {
      IssuedStays(t, e, IdOf(Quote(t, s)));
    } else {
      ApplyKeeps(t, e);
      StagedIsIssued(Apply(t, e), s);
    }
  }

  lemma TransactionKeeps(sys: System, e: Event)
    requires SysInv(sys) && Enabled(sys, Transaction(e))
    ensures SysInv(AfterTransaction(sys, e))
  {
    var sys' := AfterTransaction(sys, e);
    ApplyKeeps(sys.t, e);
    if sys.inFlight.Some? {
      TransactionFlight(sys, e);
    }
    forall s | s in sys'.t.completions
      ensures RowHistoryOk(sys', s) && Issued(sys'.t, IdOf(Quote(sys'.t, s)))
    {
      TransactionHistory(sys, e, s);
      if s in sys.t.completions { assert RowHistoryOk(sys, s); }
      TransactionIssued(sys.t, e, s);
    }
    forall id | id in sys.staged ensures Issued(sys'.t, id) {
      IssuedStays(sys.t, e, id);
    }
  }

  /** A completion in flight belongs to a committing session, which nobody else can move. */
  lemma TransactionFlight(sys: System, e: Event)
    requires SysInv(sys) && Enabled(sys, Transaction(e)) && sys.inFlight.Some?
    ensures FlightOk(AfterTransaction(sys, e))
  {
    TransactionRows(sys.t, e);
    TransactionPhase(sys.t, e, IdOf(sys.inFlight.value));
  }

  // ---------------------------------------------------------------- the coordinator's own steps

  /** Only the row of `id` changed, from `p` to `q`; everything else the invariant speaks of is as before. */
  ghost predicate OneRow(t: Tables, t': Tables, c: Staged) {
    && c.session in t.completions && t'.completions.Keys == t.completions.Keys
    && (forall s :: s in t.completions && s != c.session ==> t'.completions[s] == t.completions[s])
    && t'.completions[c.session].attempt == t.completions[c.session].attempt
    && t'.completions[c.session].token == t.completions[c.session].token
    && t'.nextAttempt == t.nextAttempt && t'.attempts.Keys == t.attempts.Keys
    && (forall a :: a in t.attempts && !t.attempts[a].state.AttemptRunning? ==> !t'.attempts[a].state.AttemptRunning?)
  }

  /** A step that moves one row along keeps the history, provided the row itself is still well recorded. */
  lemma OneRowHistory(sys: System, sys': System, c: Staged)
    requires HistoryOk(sys) && sys'.staged == sys.staged && sys.accepted <= sys'.accepted
    requires OneRow(sys.t, sys'.t, c) && RowHistoryOk(sys', c.session)
    ensures HistoryOk(sys')
  {
    forall s | s in sys'.t.completions ensures RowHistoryOk(sys', s) {
      if s != c.session { assert RowHistoryOk(sys, s); }
    }
  }

  lemma OneRowKeeps(sys: System, sys': System, c: Staged)
    requires HistoryOk(sys) && sys'.staged == sys.staged && sys.accepted <= sys'.accepted && sys'.inFlight.None?
    requires OneRow(sys.t, sys'.t, c) && Inv(sys'.t) && RowHistoryOk(sys', c.session)
    ensures SysInv(sys')
  {
    OneRowHistory(sys, sys', c);
  }

  lemma FinalizeRowOk(t: Tables, c: Staged)
    requires Inv(t) && RowMatches(t, c) && Honest(t, c)
    ensures OneRow(t, Finalize(t, c).0, c) && Inv(Finalize(t, c).0)
    ensures t.completions[c.session].projected ==>
      Finalize(t, c).1 == Applied &&
          Finalize(t, c).0.completions[c.session] == t.completions[c.session].(finalized := true)
    ensures !t.completions[c.session].projected ==> Finalize(t, c) == (t, Stale)
  {
    RowOfMatch(t, c);
    FinalizeKeeps(t, c);
  }

  lemma RejectRowOk(t: Tables, c: Staged, error: string)
    requires Inv(t) && RowMatches(t, c)
    ensures OneRow(t, Reject(t, c, error).0, c) && Inv(Reject(t, c, error).0)
    ensures var row := Reject(t, c, error).0.completions[c.session];
            row.finalized && row.terminal == Blocked && row.projected == t.completions[c.session].projected
    ensures Reject(t, c, error).0.sessions[c.session].state == Blocked
  {
    RowOfMatch(t, c);
    RejectKeeps(t, c, error);
  }

  lemma SmallRowOk(t: Tables, c: Staged, now: nat)
    requires Inv(t) && RowMatches(t, c)
    ensures OneRow(t, RecordError(t, c, now).0, c) && Inv(RecordError(t, c, now).0)
    ensures OneRow(t, MarkProjected(t, c).0, c) && Inv(MarkProjected(t, c).0)
    ensures MarkProjected(t, c) ==
      (t.(completions := t.completions[c.session := t.completions[c.session].(projected := true)]), true)
  {
    RecordErrorKeeps(t, c, now);
    MarkProjectedKeeps(t, c);
  }

  lemma FirstProjectedIs(t: Tables)
    ensures |FirstProjected(t)| <= 1
    ensures FirstProjected(t) != [] ==>
      var c := FirstProjected(t)[0];
      c.session in t.completions && c == Quote(t, c.session) && ProjectedRow(t.completions[c.session])
  {
  }

  lemma FirstDueIs(t: Tables, now: nat)
    ensures |FirstDue(t, now)| <= 1
    ensures FirstDue(t, now) != [] ==>
      var c := FirstDue(t, now)[0];
      c.session in t.completions && c == Quote(t, c.session) && DueRow(t.completions[c.session], now)
  {
  }

  /** The action is about an open row, quoted as it stands, and nothing is in flight. */
  ghost predicate Sound(sys: System, action: Dispatch) {
    match action
    case Idle => true
    case FinalizeFirst(c) =>
      sys.inFlight.None? && c.session in sys.t.completions && c == Quote(sys.t, c.session) &&
          ProjectedRow(sys.t.completions[c.session])
    case Send(c) =>
      sys.inFlight.None? && c.session in sys.t.completions && c == Quote(sys.t, c.session) &&
          DueRow(sys.t.completions[c.session], sys.now)
  }

  lemma DecideSound(sys: System, projectedOk: bool, dueOk: bool)
    ensures Sound(sys, Decide(sys, projectedOk, dueOk))
  {
    FirstProjectedIs(sys.t);
    FirstDueIs(sys.t, sys.now);
  }

  lemma DispatchKeeps(sys: System, action: Dispatch, finalize: Fate, channelOpen: bool)
    requires SysInv(sys) && Sound(sys, action)
    ensures SysInv(AfterDispatch(sys, action, finalize, channelOpen))
  {
    match action
    case Idle =>
    case FinalizeFirst(c) => FinalizedKeeps(sys, c);
    case Send(c) => SendKeeps(sys, c);
  }

  lemma SendKeeps(sys: System, c: Staged)
    requires SysInv(sys) && c.session in sys.t.completions && c == Quote(sys.t, c.session)
    requires DueRow(sys.t.completions[c.session], sys.now)
    ensures SysInv(sys.(inFlight := Some(c), sent := sys.sent + [IdOf(c)]))
  {
    var sys' := sys.(inFlight := Some(c), sent := sys.sent + [IdOf(c)]);
    forall s | s in sys'.t.completions ensures RowHistoryOk(sys', s) { assert RowHistoryOk(sys, s); }
  }

  /** In flight, a completion is still open and unmarked: the projector's answer always finds it. */
  lemma FlightMatches(sys: System, c: Staged)
    requires SysInv(sys) && sys.inFlight == Some(c)
    ensures RowMatches(sys.t, c) && !sys.t.completions[c.session].projected
    ensures Honest(sys.t, c) && RowHistoryOk(sys, c.session)
    ensures IdOf(Quote(sys.t, c.session)) == IdOf(c)
  {
  }

  lemma ErrorKeeps(sys: System, c: Staged, first: Fate)
    requires SysInv(sys) && sys.inFlight == Some(c)
    ensures SysInv(AfterError(sys, c, first))
  {
    FlightMatches(sys, c);
    SmallRowOk(sys.t, c, sys.now);
    RelabelKeeps(sys, sys.(inFlight := None));
    OneRowKeeps(sys, sys.(inFlight := None, t := RecordError(sys.t, c, sys.now).0), c);
  }

  lemma RejectionKeeps(sys: System, c: Staged, error: string, first: Fate)
    requires SysInv(sys) && sys.inFlight == Some(c)
    ensures SysInv(AfterReject(sys, c, error, first))
  {
    FlightMatches(sys, c);
    RejectRowOk(sys.t, c, error);
    RelabelKeeps(sys, sys.(inFlight := None));
    OneRowKeeps(sys, sys.(inFlight := None, t := Reject(sys.t, c, error).0), c);
  }

  function AcceptedMark(sys: System, c: Staged): System {
    sys.(inFlight := None, accepted := sys.accepted + {IdOf(c)}, t := MarkProjected(sys.t, c).0)
  }

  lemma MarkKeeps(sys: System, c: Staged)
    requires SysInv(sys) && sys.inFlight == Some(c)
    ensures var marked := AcceptedMark(sys, c);
      SysInv(marked) && RowMatches(marked.t, c) && marked.t.completions[c.session].projected && Honest(marked.t, c)
  {
    FlightMatches(sys, c);
    SmallRowOk(sys.t, c, sys.now);
    OneRowKeeps(sys, AcceptedMark(sys, c), c);
  }

  lemma AcceptedKeeps(sys: System, c: Staged, first: Fate, finalize: Fate)
    requires SysInv(sys) && sys.inFlight == Some(c)
    ensures SysInv(AfterAccept(sys, c, first, finalize))
  {
    AcceptedGrows(sys, IdOf(c));
    FlightMatches(sys, c);
    SmallRowOk(sys.t, c, sys.now);
    MarkKeeps(sys, c);
    FinalizedKeeps(AcceptedMark(sys, c), c);
  }

  lemma FinalizedKeeps(sys: System, c: Staged)
    requires SysInv(sys) && sys.inFlight.None? && RowMatches(sys.t, c)
    requires Honest(sys.t, c) && sys.t.completions[c.session].projected
    ensures SysInv(sys.(t := Finalize(sys.t, c).0))
  {
    assert RowHistoryOk(sys, c.session);
    FinalizeRowOk(sys.t, c);
    OneRowKeeps(sys, sys.(t := Finalize(sys.t, c).0), c);
  }

  lemma FinishedKeeps(sys: System, c: Staged, result: ProjectorResult, first: Fate, finalize: Fate)
    requires SysInv(sys) && (FlightId(sys) == Some(IdOf(c)) ==> sys.inFlight == Some(c))
    ensures SysInv(AfterResult(sys, c, result, first, finalize))
  {
    match ReactionTo(FlightId(sys), c, result)
    case Ignore =>
    case NoteError(_) => ErrorKeeps(sys, c, first);
    case RejectRow(error) => RejectionKeeps(sys, c, error, first);
    case MarkThenFinalize => AcceptedKeeps(sys, c, first, finalize);
  }

  lemma AcceptedGrows(sys: System, id: ProjectionId)
    requires SysInv(sys)
    ensures SysInv(sys.(inFlight := None, accepted := sys.accepted + {id}))
  {
    var sys' := sys.(inFlight := None, accepted := sys.accepted + {id});
    forall s | s in sys'.t.completions ensures RowHistoryOk(sys', s) { assert RowHistoryOk(sys, s); }
  }

  lemma NextKeeps(sys: System, step: Step)
    requires SysInv(sys) && Enabled(sys, step)
    ensures SysInv(Next(sys, step))
  {
    match step
    case Transaction(e) => TransactionKeeps(sys, e);
    case DispatchProjection(projectedOk, dueOk, finalize, channelOpen) =>
      DecideSound(sys, projectedOk, dueOk);
      DispatchKeeps(sys, Decide(sys, projectedOk, dueOk), finalize, channelOpen);
    case ProjectionFinished(c, result, first, finalize) => FinishedKeeps(sys, c, result, first, finalize);
    case Restart => RelabelKeeps(sys, sys.(inFlight := None));
    case ClockMoves(to) => RelabelKeeps(sys, sys.(now := to));
  }

  lemma RelabelKeeps(sys: System, sys': System)
    requires SysInv(sys) && sys'.t == sys.t && sys'.accepted == sys.accepted && sys'.staged == sys.staged
    requires sys'.inFlight == sys.inFlight || sys'.inFlight.None?
    ensures SysInv(sys')
  {
    forall s | s in sys'.t.completions ensures RowHistoryOk(sys', s) { assert RowHistoryOk(sys, s); }
  }

  // ---------------------------------------------------------------- over whole runs

  ghost function Runs(sys: System, steps: seq<Step>): System
    decreases |steps|
  {
    if steps == [] then sys else Runs(Next(sys, steps[0]), steps[1..])
  }

  ghost predicate EnabledRun(sys: System, steps: seq<Step>)
    decreases |steps|
  {
    steps == [] || (Enabled(sys, steps[0]) && EnabledRun(Next(sys, steps[0]), steps[1..]))
  }

  const FRESH: System := System(EMPTY, 0, None, {}, [], map[])

  lemma {:induction false} RunKeeps(sys: System, steps: seq<Step>)
    requires SysInv(sys) && EnabledRun(sys, steps)
    ensures SysInv(Runs(sys, steps))
    decreases |steps|
  {
    if steps != [] {
      NextKeeps(sys, steps[0]);
      RunKeeps(Next(sys, steps[0]), steps[1..]);
    }
  }

  /** How the row of `c` may move in the coordinator's own steps. */
  lemma OneRowPhase(t: Tables, t': Tables, c: Staged, id: ProjectionId)
    requires RowMatches(t, c) && OneRow(t, t', c)
    ensures id != IdOf(c) ==> PhaseOf(t', id) == PhaseOf(t, id)
  {
  }

  lemma DispatchPhase(sys: System, action: Dispatch, finalize: Fate, channelOpen: bool, id: ProjectionId)
    requires SysInv(sys) && Sound(sys, action)
    ensures Advance(PhaseOf(sys.t, id), PhaseOf(AfterDispatch(sys, action, finalize, channelOpen).t, id))
    ensures PhaseOf(sys.t, id).Absent? ==> PhaseOf(AfterDispatch(sys, action, finalize, channelOpen).t, id).Absent?
  {
    match action
    case FinalizeFirst(c) =>
      FinalizeRowOk(sys.t, c);
      OneRowPhase(sys.t, Finalize(sys.t, c).0, c, id);
    case _ =>
  }

  lemma AcceptEffect(sys: System, c: Staged, first: Fate, finalize: Fate, id: ProjectionId)
    requires SysInv(sys) && sys.inFlight == Some(c)
    ensures var t' := AfterAccept(sys, c, first, finalize).t;
      && (id != IdOf(c) ==> PhaseOf(t', id) == PhaseOf(sys.t, id))
      && PhaseOf(t', IdOf(c)) == (
           if first.NotCommitted? then Pending
           else if first.AnswerLost? || finalize.NotCommitted? then Projected
           else Finalized)
  {
    FlightMatches(sys, c);
    SmallRowOk(sys.t, c, sys.now);
    MarkKeeps(sys, c);
    var marked := AcceptedMark(sys, c);
    OneRowPhase(sys.t, marked.t, c, id);
    FinalizeRowOk(marked.t, c);
    OneRowPhase(marked.t, Finalize(marked.t, c).0, c, id);
  }

  lemma FailureEffect(sys: System, c: Staged, error: string, first: Fate, id: ProjectionId)
    requires SysInv(sys) && sys.inFlight == Some(c)
    ensures PhaseOf(AfterError(sys, c, first).t, id) == PhaseOf(sys.t, id)
    ensures id != IdOf(c) ==> PhaseOf(AfterReject(sys, c, error, first).t, id) == PhaseOf(sys.t, id)
    ensures PhaseOf(AfterReject(sys, c, error, first).t, IdOf(c)) == if first.NotCommitted? then Pending else Rejected
  {
    FlightMatches(sys, c);
    SmallRowOk(sys.t, c, sys.now);
    RejectRowOk(sys.t, c, error);
    OneRowPhase(sys.t, RecordError(sys.t, c, sys.now).0, c, id);
    OneRowPhase(sys.t, Reject(sys.t, c, error).0, c, id);
  }

  /**
   * What each answer of the projector does, whatever becomes of the store calls: to the completion in flight what
   * the answer says, to every other completion nothing; and an answer for any other completion does nothing at all.
   */
  lemma ResultEffect(sys: System, c: Staged, result: ProjectorResult, first: Fate, finalize: Fate, id: ProjectionId)
    requires SysInv(sys) && Enabled(sys, ProjectionFinished(c, result, first, finalize))
    ensures FlightId(sys) == Some(IdOf(c)) ==> PhaseOf(sys.t, IdOf(c)) == Pending
    ensures var sys' := AfterResult(sys, c, result, first, finalize);
      if FlightId(sys) != Some(IdOf(c)) then sys' == sys
      else
        && sys'.inFlight.None?
        && (id != IdOf(c) ==> PhaseOf(sys'.t, id) == PhaseOf(sys.t, id))
        && PhaseOf(sys'.t, IdOf(c)) == (
             if first.NotCommitted? || result.Retryable? then Pending
             else if result.RejectedBy? then Rejected
             else if first.AnswerLost? || finalize.NotCommitted? then Projected
             else Finalized)
  {
    if FlightId(sys) == Some(IdOf(c)) {
      match result
      case Retryable(_) =>
        FailureEffect(sys, c, "", first, id);
        FailureEffect(sys, c, "", first, IdOf(c));
      case RejectedBy(error) => FailureEffect(sys, c, error, first, id);
      case Accepted => AcceptEffect(sys, c, first, finalize, id);
    }
  }

  /**
   * Every completion only ever advances: pending, then projected and finalized, or rejected; closed rows may be
   * dropped.
   */
  lemma PhasesAdvance(sys: System, step: Step, id: ProjectionId)
    requires SysInv(sys) && Enabled(sys, step)
    ensures Advance(PhaseOf(sys.t, id), PhaseOf(Next(sys, step).t, id))
    ensures id in sys.staged && PhaseOf(sys.t, id).Absent? ==> PhaseOf(Next(sys, step).t, id).Absent?
  {
    match step
    case Transaction(e) => TransactionPhase(sys.t, e, id);
    case DispatchProjection(projectedOk, dueOk, finalize, channelOpen) =>
      DecideSound(sys, projectedOk, dueOk);
      DispatchPhase(sys, Decide(sys, projectedOk, dueOk), finalize, channelOpen, id);
    case ProjectionFinished(c, result, first, finalize) =>
      ResultEffect(sys, c, result, first, finalize, id);
    case _ =>
  }

  /** A dispatch adds at most the row it sends, which is pending. */
  lemma DispatchSends(sys: System, action: Dispatch, finalize: Fate, channelOpen: bool)
    requires Sound(sys, action)
    ensures var sys' := AfterDispatch(sys, action, finalize, channelOpen);
      sys'.sent == sys.sent ||
          (action.Send? && sys'.sent == sys.sent + [IdOf(action.row)] && PhaseOf(sys.t, IdOf(action.row)) == Pending)
  {
  }

  lemma StagedGrows(sys: System, step: Step)
    ensures sys.staged.Keys <= Next(sys, step).staged.Keys
  {
  }

  lemma OnlyDispatchSends(sys: System, step: Step)
    ensures !step.DispatchProjection? ==> Next(sys, step).sent == sys.sent
  {
  }

  /** The projector is only ever handed completions that are pending. */
  lemma OnlyPendingSent(sys: System, step: Step)
    requires SysInv(sys) && Enabled(sys, step)
    ensures var sys' := Next(sys, step);
      && sys.staged.Keys <= sys'.staged.Keys
      && (|| sys'.sent == sys.sent
          || (exists id :: sys'.sent == sys.sent + [id] && PhaseOf(sys.t, id) == Pending))
  {
    StagedGrows(sys, step);
    OnlyDispatchSends(sys, step);
    if step.DispatchProjection? {
      DecideSound(sys, step.projectedOk, step.dueOk);
      DispatchSends(sys, Decide(sys, step.projectedOk, step.dueOk), step.finalize, step.channelOpen);
    }
  }

  /** The completion was staged, and it is past the point where the projector is asked. */
  ghost predicate Past(sys: System, id: ProjectionId) { id in sys.staged && PhaseOf(sys.t, id) != Pending }

  /** `after` continues `before` without mentioning `id` again. */
  ghost predicate NotSentSince(before: seq<ProjectionId>, after: seq<ProjectionId>, id: ProjectionId) {
    before <= after && id !in after[|before|..]
  }

  lemma NotSentTransitive(a: seq<ProjectionId>, b: seq<ProjectionId>, c: seq<ProjectionId>, id: ProjectionId)
    requires NotSentSince(a, b, id) && NotSentSince(b, c, id)
    ensures NotSentSince(a, c, id)
  {
    assert c[|a|..] == b[|a|..] + c[|b|..];
  }

  lemma PastStep(sys: System, step: Step, id: ProjectionId)
    requires SysInv(sys) && Enabled(sys, step) && Past(sys, id)
    ensures Past(Next(sys, step), id) && NotSentSince(sys.sent, Next(sys, step).sent, id)
  {
    PhasesAdvance(sys, step, id);
    OnlyPendingSent(sys, step);
  }

  /** Once marked projected, finalized, rejected or dropped, a completion is never sent to the projector again. */
  lemma {:induction false} NeverSentAgain(sys: System, steps: seq<Step>, id: ProjectionId)
    requires SysInv(sys) && EnabledRun(sys, steps) && Past(sys, id)
    ensures Past(Runs(sys, steps), id) && NotSentSince(sys.sent, Runs(sys, steps).sent, id)
    decreases |steps|
  {
    if steps != [] {
      NextKeeps(sys, steps[0]);
      PastStep(sys, steps[0], id);
      NeverSentAgain(Next(sys, steps[0]), steps[1..], id);
      NotSentTransitive(sys.sent, Next(sys, steps[0]).sent, Runs(sys, steps).sent, id);
    }
  }

  /** A finalized session ended as it was staged, after the projector accepted it; a rejected one is blocked. */
  lemma OutcomeKept(steps: seq<Step>, s: nat)
    requires EnabledRun(FRESH, steps) && s in Runs(FRESH, steps).t.completions
    ensures var sys := Runs(FRESH, steps);
      var id := IdOf(Quote(sys.t, s));
      && s in sys.t.sessions && id in sys.staged
      && (PhaseOf(sys.t, id) == Finalized ==> id in sys.accepted && sys.t.sessions[s].state == sys.staged[id])
      && (PhaseOf(sys.t, id) == Projected ==> id in sys.accepted && sys.t.sessions[s].state == Committing)
      && (PhaseOf(sys.t, id) == Pending ==> sys.t.sessions[s].state == Committing)
      && (PhaseOf(sys.t, id) == Rejected ==> sys.t.sessions[s].state == Blocked)
  {
    RunKeeps(FRESH, steps);
    var sys := Runs(FRESH, steps);
    assert CompletionOk(sys.t, s) && RowHistoryOk(sys, s);
  }

  /** The outcome remembered for a completion is never revised. */
  lemma {:induction false} StagedForGood(sys: System, steps: seq<Step>, id: ProjectionId)
    requires EnabledRun(sys, steps) && id in sys.staged
    ensures id in Runs(sys, steps).staged && Runs(sys, steps).staged[id] == sys.staged[id]
    decreases |steps|
  {
    if steps != [] {
      StagedStays(sys, steps[0], id);
      StagedForGood(Next(sys, steps[0]), steps[1..], id);
    }
  }

  lemma StagedStays(sys: System, step: Step, id: ProjectionId)
    requires id in sys.staged
    ensures id in Next(sys, step).staged && Next(sys, step).staged[id] == sys.staged[id]
  {
    match step
    case DispatchProjection(projectedOk, dueOk, finalize, channelOpen) =>
      DispatchRemembers(sys, Decide(sys, projectedOk, dueOk), finalize, channelOpen);
    case _ =>
  }

  lemma DispatchRemembers(sys: System, action: Dispatch, finalize: Fate, channelOpen: bool)
    ensures AfterDispatch(sys, action, finalize, channelOpen).staged == sys.staged
  {
  }

  /**
   * The session of an open or projected completion, and of a finalized one, still carries the outcome it was seen
   * with.
   */
  lemma OutcomeNeverRevised(sys: System, steps: seq<Step>, s: nat)
    requires SysInv(sys) && EnabledRun(sys, steps) && s in sys.t.completions
    requires PhaseOf(sys.t, IdOf(Quote(sys.t, s))) != Rejected
    ensures var later := Runs(sys, steps).t;
      var id := IdOf(Quote(sys.t, s));
      && (PhaseOf(later, id).Pending? || PhaseOf(later, id).Projected? ==>
          later.completions[s].terminal == sys.t.completions[s].terminal)
      && (PhaseOf(later, id).Finalized? ==>
            s in later.sessions &&
                later.completions[s].terminal == later.sessions[s].state == sys.t.completions[s].terminal)
  {
    var id := IdOf(Quote(sys.t, s));
    RunKeeps(sys, steps);
    assert RowHistoryOk(sys, s);
    StagedForGood(sys, steps, id);
    var after := Runs(sys, steps);
    if !PhaseOf(after.t, id).Absent? {
      assert IdOf(Quote(after.t, s)) == id && RowHistoryOk(after, s) && CompletionOk(after.t, s);
    }
  }

  // ---------------------------------------------------------------- the queries find something when there is something

  lemma {:induction false} FirstOf(t: Tables, rows: set<nat>) returns (s: nat)
    requires rows != {} && rows <= t.completions.Keys
    ensures s in rows && forall r :: r in rows ==> Earlier(t, s, r)
    decreases |rows|
  {
    var x :| x in rows;
    if rows == {x} {
      s := x;
    } else {
      var y := FirstOf(t, rows - {x});
      s := if Earlier(t, x, y) then x else y;
      forall r | r in rows ensures Earlier(t, s, r) {
        if r != x { assert Earlier(t, y, r); }
      }
    }
  }

  /** Something is sent exactly when nothing is in flight, nothing waits to be finalized, and a row is due. */
  lemma SendsIff(sys: System)
    ensures Decide(sys, true, true).Send? <==>
      && sys.inFlight.None?
      && (forall s :: s in sys.t.completions ==> !ProjectedRow(sys.t.completions[s]))
      && (exists s :: s in sys.t.completions && DueRow(sys.t.completions[s], sys.now))
    ensures Decide(sys, true, true).FinalizeFirst? <==>
      sys.inFlight.None? && exists s :: s in sys.t.completions && ProjectedRow(sys.t.completions[s])
  {
    var projected := set s | s in sys.t.completions && ProjectedRow(sys.t.completions[s]);
    var due := set s | s in sys.t.completions && DueRow(sys.t.completions[s], sys.now);
    if projected != {} { var s := FirstOf(sys.t, projected); assert s in projected; }
    if due != {} { var s := FirstOf(sys.t, due); assert s in due; }
    assert forall s :: s in sys.t.completions && ProjectedRow(sys.t.completions[s]) ==> s in projected;
    assert forall s :: s in sys.t.completions && DueRow(sys.t.completions[s], sys.now) ==> s in due;
  }
}
