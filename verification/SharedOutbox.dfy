/**
 * The outbox under several coordinators, each with a row of its own in flight, over one database
 * (src-tauri/src/application/execution_engine.rs, dispatch_projection and projection_finished).
 *
 * Every query and every store call is a step by itself here, so anything may happen between any two of them.
 */
module SharedOutbox {
  import opened Prelude
  import opened SchedulerStore
  import opened TransactionInvariants
  import opened StoreRuns
  import opened Outbox = ProjectionOutbox
  import PoolAndStore

  /** What a coordinator is about to do next with the row it read. */
  datatype Coordinator =
    | Resting
    | InFlight(row: Staged)
    | Marking(row: Staged)
    | Finalizing(row: Staged)
    | Rejecting(row: Staged, error: string)
    | Noting(row: Staged)

  /**
   * `at` has the coordinators that are not resting. The rest is history: what was handed to the projector, what it
   * accepted, the outcome each completion was staged with, and the completions rejected after they were marked.
   */
  datatype Shared = Shared(t: Tables, at: map<nat, Coordinator>, sent: seq<ProjectionId>, accepted: set<ProjectionId>,
                           staged: map<ProjectionId, SessionState>, overruled: set<ProjectionId>)

  datatype SharedStep =
    | Other(e: Event)
    | SendRow(k: nat, due: Staged, now: nat)
    | ReadProjected(k: nat, marked: Staged)
    | Answer(k: nat, result: ProjectorResult)
    | Call(k: nat, now: nat, fate: Fate)
    | Forget(k: nat)

  function StateOf(sh: Shared, k: nat): Coordinator { if k in sh.at then sh.at[k] else Resting }

  /** The store call a coordinator makes; InFlight and Resting make none. */
  function CallOf(c: Coordinator, now: nat): Option<Event> {
    match c
    case Marking(row) => Some(Event(now, OpMark(row)))
    case Finalizing(row) => Some(Event(now, OpFinalize(row)))
    case Rejecting(row, error) => Some(Event(now, OpReject(row, error)))
    case Noting(row) => Some(Event(now, OpRecordError(row)))
    case _ => None
  }

  function AfterAnswer(row: Staged, result: ProjectorResult): Coordinator {
    match result
    case Accepted => Marking(row)
    case Retryable(_) => Noting(row)
    case RejectedBy(error) => Rejecting(row, error)
  }

  /** Finalizing follows only a mark that was answered as made. */
  function AfterCall(t: Tables, c: Coordinator, fate: Fate): Coordinator {
    if c.Marking? && fate.Answered? && MarkProjected(t, c.row).1 then Finalizing(c.row) else Resting
  }

  /** This call rejects a row that is marked projected. */
  predicate Overrules(t: Tables, c: Coordinator) {
    c.Rejecting? && RowMatches(t, c.row) && t.completions[c.row.session].projected
  }

  ghost predicate SharedEnabled(sh: Shared, step: SharedStep) {
    match step
    case Other(e) => !OutboxOp(e.op)
    case SendRow(k, c, now) =>
      StateOf(sh, k).Resting? && c.session in sh.t.completions && c == Quote(sh.t, c.session) &&
          DueRow(sh.t.completions[c.session], now)
    case ReadProjected(k, c) =>
      StateOf(sh, k).Resting? && c.session in sh.t.completions && c == Quote(sh.t, c.session) &&
          ProjectedRow(sh.t.completions[c.session])
    case Answer(k, _) => StateOf(sh, k).InFlight?
    case Call(k, now, _) => CallOf(StateOf(sh, k), now).Some?
    case Forget(_) => true
  }

  ghost function Called(t: Tables, c: Coordinator, now: nat, fate: Fate): Tables
    requires CallOf(c, now).Some?
  {
    if fate.NotCommitted? then t else Apply(t, CallOf(c, now).value)
  }

  ghost function NextShared(sh: Shared, step: SharedStep): Shared
    requires SharedEnabled(sh, step)
  {
    match step
    case Other(e) => sh.(t := Apply(sh.t, e), staged := Remember(sh.staged, Apply(sh.t, e)))
    case SendRow(k, c, _) => sh.(at := sh.at[k := InFlight(c)], sent := sh.sent + [IdOf(c)])
    case ReadProjected(k, c) => sh.(at := sh.at[k := Finalizing(c)])
    case Answer(k, result) =>
      var c := StateOf(sh, k).row;
      sh.(at := sh.at[k := AfterAnswer(c, result)], accepted := if result.Accepted? then sh.accepted + {IdOf(c)}
                                                                else sh.accepted)
    case Call(k, now, fate) =>
      var c := StateOf(sh, k);
      sh.(t := Called(sh.t, c, now, fate), at := sh.at[k := AfterCall(sh.t, c, fate)],
          overruled := if Overrules(sh.t, c) && !fate.NotCommitted? then sh.overruled + {IdOf(c.row)} else sh.overruled)
    case Forget(k) => sh.(at := sh.at - {k})
  }

  ghost predicate SharedRun(sh: Shared, steps: seq<SharedStep>)
    decreases |steps|
  {
    steps == [] || (SharedEnabled(sh, steps[0]) && SharedRun(NextShared(sh, steps[0]), steps[1..]))
  }

  ghost function AfterSteps(sh: Shared, steps: seq<SharedStep>): Shared
    requires SharedRun(sh, steps)
    decreases |steps|
  {
    if steps == [] then sh else AfterSteps(NextShared(sh, steps[0]), steps[1..])
  }

  const START: Shared := Shared(EMPTY, map[], [], {}, map[], {})

  // ---------------------------------------------------------------- the invariant

  /**
   * The row is quoted as it stands, if it still stands; and only what the projector accepted is marked or finalized.
   */
  ghost predicate HoldsOk(t: Tables, c: Coordinator, accepted: set<ProjectionId>) {
    c.Resting? ||
        (Honest(t, c.row) && Issued(t, IdOf(c.row)) && (c.Marking? || c.Finalizing? ==> IdOf(c.row) in accepted))
  }

  /** A row says what it was staged with, unless it was rejected, be it before or after it was marked. */
  ghost predicate RowOk(sh: Shared, s: nat)
    requires s in sh.t.completions
  {
    var row := sh.t.completions[s];
    var id := IdOf(Quote(sh.t, s));
    && id in sh.staged && (row.projected ==> id in sh.accepted)
    && (id in sh.overruled ==> row.finalized && row.projected)
    && row.terminal == if id in sh.overruled || (row.finalized && !row.projected) then Blocked else sh.staged[id]
  }

  ghost predicate SharedInv(sh: Shared) {
    && Inv(sh.t)
    && (forall k :: k in sh.at ==> HoldsOk(sh.t, sh.at[k], sh.accepted))
    && (forall s :: s in sh.t.completions ==> RowOk(sh, s))
    && (forall id :: id in sh.staged ==> Issued(sh.t, id))
    && sh.overruled <= sh.staged.Keys
  }

  lemma StartOk()
    ensures SharedInv(START)
  {
    EmptyStoreOk();
  }

  /** Whatever is committed, a row once read is still quoted rightly while it stands. */
  lemma HoldsStays(t: Tables, e: Event, c: Coordinator, accepted: set<ProjectionId>, more: set<ProjectionId>)
    requires Inv(t) && HoldsOk(t, c, accepted) && accepted <= more
    ensures HoldsOk(Apply(t, e), c, more)
  {
    if !c.Resting? {
      HonestStep(t, e, c.row);
      IssuedStays(t, e, IdOf(c.row));
    }
  }

  // ---------------------------------------------------------------- what a transaction does to the rows

  /** A row after a call on `c`: only that of `c` moves, and only while it is open. */
  ghost predicate Moved(t: Tables, t': Tables, c: Staged) {
    && t'.completions.Keys == t.completions.Keys
    && (forall s :: s in t.completions && (s != c.session || !RowMatches(t, c)) ==>
        t'.completions[s] == t.completions[s])
    && (RowMatches(t, c) ==>
          t'.completions[c.session].attempt == c.attempt && t'.completions[c.session].token == c.token)
  }

  lemma MarkMoves(t: Tables, c: Staged)
    ensures Moved(t, MarkProjected(t, c).0, c)
    ensures RowMatches(t, c) ==>
      MarkProjected(t, c).0.completions[c.session] == t.completions[c.session].(projected := true)
  {
  }

  lemma FinalizeMoves(t: Tables, c: Staged)
    requires Inv(t)
    ensures Moved(t, Finalize(t, c).0, c)
    ensures RowMatches(t, c) ==>
      Finalize(t, c).0.completions[c.session] ==
      if t.completions[c.session].projected then t.completions[c.session].(finalized := true)
      else t.completions[c.session]
  {
    if RowMatches(t, c) || CommittingUnder(t, c) { RowOfMatch(t, c); }
  }

  lemma RejectMoves(t: Tables, c: Staged, error: string)
    requires Inv(t)
    ensures Moved(t, Reject(t, c, error).0, c)
    ensures RowMatches(t, c) ==>
      Reject(t, c, error).0.completions[c.session] ==
      t.completions[c.session].(terminal := Blocked, failures := t.completions[c.session].failures + 1,
                                finalized := true)
  {
    if RowMatches(t, c) || CommittingUnder(t, c) { RowOfMatch(t, c); }
  }

  lemma NoteMoves(t: Tables, c: Staged, now: nat)
    ensures Moved(t, RecordError(t, c, now).0, c)
    ensures RowMatches(t, c) ==>
      RecordError(t, c, now).0.completions[c.session] == FailedOnce(t.completions[c.session], now)
  {
  }

  /** What becomes of the row a call finds open. */
  function Row(row: Completion, c: Coordinator, now: nat): Completion {
    match c
    case Marking(_) => row.(projected := true)
    case Finalizing(_) => if row.projected then row.(finalized := true) else row
    case Rejecting(_, _) => row.(terminal := Blocked, failures := row.failures + 1, finalized := true)
    case Noting(_) => FailedOnce(row, now)
    case _ => row
  }

  lemma CallMoves(t: Tables, c: Coordinator, now: nat)
    requires Inv(t) && CallOf(c, now).Some?
    ensures var t' := Apply(t, CallOf(c, now).value);
      Moved(t, t', c.row) &&
          (RowMatches(t, c.row) ==> t'.completions[c.row.session] == Row(t.completions[c.row.session], c, now))
  {
    match c
    case Marking(row) => MarkMoves(t, row);
    case Finalizing(row) => FinalizeMoves(t, row);
    case Rejecting(row, error) => RejectMoves(t, row, error);
    case Noting(row) => NoteMoves(t, row, now);
  }

  // ---------------------------------------------------------------- every step keeps the invariant

  /** The row a call finds open is as well recorded afterwards. */
  lemma MovedRowOk(sh: Shared, k: nat, now: nat, fate: Fate)
    requires SharedInv(sh) && SharedEnabled(sh, Call(k, now, fate))
    requires !fate.NotCommitted? && RowMatches(sh.t, StateOf(sh, k).row)
    ensures var sh', s := NextShared(sh, Call(k, now, fate)), StateOf(sh, k).row.session;
      s in sh'.t.completions && RowOk(sh', s)
  {
    var c := StateOf(sh, k);
    CallMoves(sh.t, c, now);
    assert RowOk(sh, c.row.session) && HoldsOk(sh.t, c, sh.accepted);
    var sh' := NextShared(sh, Call(k, now, fate));
    assert IdOf(Quote(sh'.t, c.row.session)) == IdOf(Quote(sh.t, c.row.session)) == IdOf(c.row);
  }

  lemma CallKeepsRow(sh: Shared, k: nat, now: nat, fate: Fate, s: nat)
    requires SharedInv(sh) && SharedEnabled(sh, Call(k, now, fate)) && !fate.NotCommitted?
    requires s in NextShared(sh, Call(k, now, fate)).t.completions
    ensures RowOk(NextShared(sh, Call(k, now, fate)), s)
  {
    var c := StateOf(sh, k);
    if s == c.row.session && RowMatches(sh.t, c.row) {
      MovedRowOk(sh, k, now, fate);
    } else {
      CallMoves(sh.t, c, now);
      assert RowOk(sh, s);
      assert Overrules(sh.t, c) ==> IdOf(Quote(sh.t, s)) != IdOf(c.row);
    }
  }

  lemma CallKeeps(sh: Shared, k: nat, now: nat, fate: Fate)
    requires SharedInv(sh) && SharedEnabled(sh, Call(k, now, fate))
    ensures SharedInv(NextShared(sh, Call(k, now, fate)))
  {
    var c, sh' := StateOf(sh, k), NextShared(sh, Call(k, now, fate));
    if !fate.NotCommitted? {
      var e := CallOf(c, now).value;
      ApplyKeeps(sh.t, e);
      forall j | j in sh.at
        ensures HoldsOk(sh'.t, sh.at[j], sh'.accepted)
      {
        HoldsStays(sh.t, e, sh.at[j], sh.accepted, sh.accepted);
      }
      forall s | s in sh'.t.completions ensures RowOk(sh', s) { CallKeepsRow(sh, k, now, fate, s); }
      forall id | id in sh.staged ensures Issued(sh'.t, id) { IssuedStays(sh.t, e, id); }
      if Overrules(sh.t, c) { assert RowOk(sh, c.row.session) && IdOf(Quote(sh.t, c.row.session)) == IdOf(c.row); }
    } else {
      forall s | s in sh'.t.completions ensures RowOk(sh', s) { assert RowOk(sh, s); }
    }
  }

  lemma OtherKeepsRow(sh: Shared, e: Event, s: nat)
    requires SharedInv(sh) && !OutboxOp(e.op) && s in Apply(sh.t, e).completions
    ensures RowOk(NextShared(sh, Other(e)), s) && Issued(Apply(sh.t, e), IdOf(Quote(Apply(sh.t, e), s)))
  {
    var t' := Apply(sh.t, e);
    TransactionRows(sh.t, e);
    if s in sh.t.completions {
      assert RowOk(sh, s);
    } else {
      assert !Issued(sh.t, IdOf(Quote(t', s)));
      assert IdOf(Quote(t', s)) !in sh.staged;
    }
    TransactionIssued(sh.t, e, s);
  }

  lemma OtherKeeps(sh: Shared, e: Event)
    requires SharedInv(sh) && !OutboxOp(e.op)
    ensures SharedInv(NextShared(sh, Other(e)))
  {
    var sh' := NextShared(sh, Other(e));
    ApplyKeeps(sh.t, e);
    forall k | k in sh.at
      ensures HoldsOk(sh'.t, sh.at[k], sh.accepted)
    {
      HoldsStays(sh.t, e, sh.at[k], sh.accepted, sh.accepted);
    }
    forall s | s in sh'.t.completions
      ensures RowOk(sh', s) && Issued(sh'.t, IdOf(Quote(sh'.t, s)))
    {
      OtherKeepsRow(sh, e, s);
    }
    forall id | id in sh.staged ensures Issued(sh'.t, id) { IssuedStays(sh.t, e, id); }
  }

  /** Reading a row, hearing of one and forgetting one changes no row. */
  lemma LocalKeeps(sh: Shared, step: SharedStep)
    requires SharedInv(sh) && SharedEnabled(sh, step)
    requires (step.SendRow? || step.ReadProjected? || step.Answer? || step.Forget?)
    ensures SharedInv(NextShared(sh, step))
  {
    var sh' := NextShared(sh, step);
    forall s | s in sh'.t.completions ensures RowOk(sh', s) { assert RowOk(sh, s); }
    forall k | k in sh'.at ensures HoldsOk(sh'.t, sh'.at[k], sh'.accepted) { LocalHolds(sh, step, k); }
  }

  lemma LocalHolds(sh: Shared, step: SharedStep, k: nat)
    requires SharedInv(sh) && SharedEnabled(sh, step)
    requires (step.SendRow? || step.ReadProjected? || step.Answer? || step.Forget?)
    requires k in NextShared(sh, step).at
    ensures HoldsOk(sh.t, NextShared(sh, step).at[k], NextShared(sh, step).accepted)
  {
    if k in sh.at { assert HoldsOk(sh.t, sh.at[k], sh.accepted); }
    match step
    case SendRow(_, c, _) => assert RowOk(sh, c.session);
    case ReadProjected(_, c) => assert RowOk(sh, c.session);
    case _ =>
  }

  /** Any step of any coordinator, and any other transaction, keeps the invariant. */
  lemma SharedKeeps(sh: Shared, step: SharedStep)
    requires SharedInv(sh) && SharedEnabled(sh, step)
    ensures SharedInv(NextShared(sh, step))
  {
    match step
    case Other(e) => OtherKeeps(sh, e);
    case Call(k, now, fate) => CallKeeps(sh, k, now, fate);
    case _ => LocalKeeps(sh, step);
  }

  lemma {:induction false} SharedRunKeeps(sh: Shared, steps: seq<SharedStep>)
    requires SharedInv(sh) && SharedRun(sh, steps)
    ensures SharedInv(AfterSteps(sh, steps))
    decreases |steps|
  {
    if steps != [] {
      SharedKeeps(sh, steps[0]);
      SharedRunKeeps(NextShared(sh, steps[0]), steps[1..]);
    }
  }

  // ---------------------------------------------------------------- what it means

  /**
   * However many coordinators work on the outbox, a finalized session was accepted by the projector, and it ended as it
   * was staged, unless one of them rejected it after it was marked: then it is blocked.
   */
  lemma SharedOutcome(steps: seq<SharedStep>, s: nat)
    requires SharedRun(START, steps) && s in AfterSteps(START, steps).t.completions
    ensures var sh := AfterSteps(START, steps);
      var id := IdOf(Quote(sh.t, s));
      && s in sh.t.sessions && id in sh.staged
      && (PhaseOf(sh.t, id) == Finalized ==>
            id in sh.accepted && sh.t.sessions[s].state == if id in sh.overruled then Blocked else sh.staged[id])
      && (PhaseOf(sh.t, id) == Rejected ==> sh.t.sessions[s].state == Blocked)
      && (PhaseOf(sh.t, id).Pending? || PhaseOf(sh.t, id).Projected? ==>
            sh.t.sessions[s].state == Committing && id !in sh.overruled)
  {
    StartOk();
    SharedRunKeeps(START, steps);
    var sh := AfterSteps(START, steps);
    assert CompletionOk(sh.t, s) && RowOk(sh, s);
  }

  /** The completion was staged, and it is past the point where the projector is asked. */
  ghost predicate PastPending(sh: Shared, id: ProjectionId) { id in sh.staged && PhaseOf(sh.t, id) != Pending }

  lemma CallPast(t: Tables, c: Coordinator, now: nat, id: ProjectionId)
    requires Inv(t) && CallOf(c, now).Some? && PhaseOf(t, id) != Pending
    ensures PhaseOf(Apply(t, CallOf(c, now).value), id) != Pending
  {
    CallMoves(t, c, now);
  }

  lemma PastStays(sh: Shared, step: SharedStep, id: ProjectionId)
    requires SharedInv(sh) && SharedEnabled(sh, step) && PastPending(sh, id)
    ensures PastPending(NextShared(sh, step), id) && NotSentSince(sh.sent, NextShared(sh, step).sent, id)
  {
    match step
    case Other(e) => TransactionPhase(sh.t, e, id);
    case Call(k, now, _) => CallPast(sh.t, StateOf(sh, k), now, id);
    case SendRow(_, c, _) => assert PhaseOf(sh.t, IdOf(c)) == Pending;
    case _ =>
  }

  /** Once marked, finalized, rejected or dropped, a completion is never sent again, by any coordinator. */
  lemma {:induction false} NobodySendsAgain(sh: Shared, steps: seq<SharedStep>, id: ProjectionId)
    requires SharedInv(sh) && SharedRun(sh, steps) && PastPending(sh, id)
    ensures PastPending(AfterSteps(sh, steps), id) && NotSentSince(sh.sent, AfterSteps(sh, steps).sent, id)
    decreases |steps|
  {
    if steps != [] {
      var next := NextShared(sh, steps[0]);
      SharedKeeps(sh, steps[0]);
      PastStays(sh, steps[0], id);
      NobodySendsAgain(next, steps[1..], id);
      NotSentTransitive(sh.sent, next.sent, AfterSteps(sh, steps).sent, id);
    }
  }

  // ---------------------------------------------------------------- one coordinator at a time

  predicate Busy(sh: Shared, k: nat) { !StateOf(sh, k).Resting? }

  /** No two coordinators have a row at once. */
  ghost predicate Sole(sh: Shared) { forall j, k :: Busy(sh, j) && Busy(sh, k) ==> j == k }

  ghost predicate SoleRun(sh: Shared, steps: seq<SharedStep>)
    requires SharedRun(sh, steps)
    decreases |steps|
  {
    Sole(sh) && (steps != [] ==> SoleRun(NextShared(sh, steps[0]), steps[1..]))
  }

  /** Until it is marked, the row a coordinator has is pending. */
  ghost predicate HoldsPending(t: Tables, c: Coordinator) {
    c.Resting? || c.Finalizing? || PhaseOf(t, IdOf(c.row)) == Pending
  }

  ghost predicate AloneInv(sh: Shared) {
    sh.overruled == {} && forall k :: Busy(sh, k) ==> HoldsPending(sh.t, StateOf(sh, k))
  }

  lemma AloneKeeps(sh: Shared, step: SharedStep)
    requires SharedInv(sh) && SharedEnabled(sh, step) && Sole(sh) && AloneInv(sh)
    ensures AloneInv(NextShared(sh, step))
  {
    var sh' := NextShared(sh, step);
    forall k | Busy(sh', k) ensures HoldsPending(sh'.t, StateOf(sh', k)) {
      match step
      case Other(e) =>
        assert Busy(sh, k);
        if !StateOf(sh, k).Finalizing? { TransactionPhase(sh.t, e, IdOf(StateOf(sh, k).row)); }
      case Call(j, _, _) => assert Busy(sh, j) && (k != j ==> Busy(sh, k));
      case SendRow(j, c, _) => assert k != j ==> Busy(sh, k);
      case ReadProjected(j, _) => assert k != j ==> Busy(sh, k);
      case Answer(j, _) => assert Busy(sh, j) && Busy(sh, k);
      case Forget(j) => assert Busy(sh, k);
    }
    if step.Call? {
      assert Busy(sh, step.k);
    }
  }

  /**
   * While no two coordinators have a row at once, nothing is overruled: every finalized session ended as it was
   * staged.
   */
  lemma {:induction false} NothingOverruled(sh: Shared, steps: seq<SharedStep>)
    requires SharedInv(sh) && SharedRun(sh, steps) && SoleRun(sh, steps) && AloneInv(sh)
    ensures AfterSteps(sh, steps).overruled == {}
    decreases |steps|
  {
    if steps != [] {
      SharedKeeps(sh, steps[0]);
      AloneKeeps(sh, steps[0]);
      NothingOverruled(NextShared(sh, steps[0]), steps[1..]);
    }
  }

  // ---------------------------------------------------------------- two coordinators with one row

  const ID: ProjectionId := ProjectionId(1, 1, 1)
  const ROW: Staged := Staged(1, 1, 1, Succeeded, None)

  /** Session 1 has succeeded, and its result waits to be projected. */
  function StagedOnce(): Tables {
    var t := PoolAndStore.ClaimedOnce();
    t.(completions := map[1 := Completion(1, 1, Succeeded, None, 1, 0, 1, false, false)],
       attempts := map[1 := t.attempts[1].(state := AttemptCommitting, lease := None)],
       sessions := map[1 := t.sessions[1].(state := Committing, lease := None)])
  }

  lemma StagedOnceIs()
    ensures Resolve(PoolAndStore.ClaimedOnce(), PoolAndStore.FIRST, SucceededStructured(Succeeded, None, true), 1)
         == (StagedOnce(), Ok(Applied))
  {
    var t, t' := PoolAndStore.ClaimedOnce(), StagedOnce();
    assert t.completions == map[] && t.attempts.Keys == {1} && t.sessions.Keys == {1};
    var r := Stage(t, PoolAndStore.FIRST, Succeeded, None, 1).0;
    assert r.completions == t'.completions && r.attempts == t'.attempts && r.sessions == t'.sessions;
  }

  /** Two coordinators read the row; the projector accepts it for the one and rejects it for the other. */
  function Disagreement(): seq<SharedStep> {
    [SendRow(1, ROW, 1), SendRow(2, ROW, 1), Answer(1, Accepted), Answer(2, RejectedBy("conflict")),
     Call(1, 2, Answered), Call(2, 3, Answered)]
  }

  function StagedStart(): Shared { Shared(StagedOnce(), map[], [], {}, map[ID := Succeeded], {}) }

  /** The first call marks the row, and the second rejects it. */
  function MarkedOnce(): Tables { MarkProjected(StagedOnce(), ROW).0 }

  function RejectedAfter(): Tables { Reject(MarkedOnce(), ROW, "conflict").0 }

  lemma CallsOnRow()
    ensures MarkProjected(StagedOnce(), ROW).1 && RowMatches(MarkedOnce(), ROW) && MarkedOnce().completions[1].projected
    ensures PhaseOf(RejectedAfter(), ID) == Finalized && 1 in RejectedAfter().sessions
    ensures RejectedAfter().sessions[1].state == Blocked
  {
    assert 1 in StagedOnce().completions && 1 in StagedOnce().sessions;
    assert RowMatches(StagedOnce(), ROW);
    assert MarkedOnce().sessions == StagedOnce().sessions;
    assert CommittingUnder(MarkedOnce(), ROW);
  }

  /** The states of the run. */
  function Between(n: nat): Shared {
    var sh := StagedStart();
    if n == 0 then sh
    else if n == 1 then sh.(at := map[1 := InFlight(ROW)], sent := [ID])
    else if n == 2 then sh.(at := map[1 := InFlight(ROW), 2 := InFlight(ROW)], sent := [ID, ID])
    else if n == 3 then sh.(at := map[1 := Marking(ROW), 2 := InFlight(ROW)], sent := [ID, ID], accepted := {ID})
    else if n == 4
         then sh.(at := map[1 := Marking(ROW), 2 := Rejecting(ROW, "conflict")], sent := [ID, ID], accepted := {ID})
    else if n == 5 then
      sh.(t := MarkedOnce(), at := map[1 := Finalizing(ROW), 2 := Rejecting(ROW, "conflict")], sent := [ID, ID],
          accepted := {ID})
    else
      sh.(t := RejectedAfter(), at := map[1 := Finalizing(ROW), 2 := Resting], sent := [ID, ID], accepted := {ID},
          overruled := {ID})
  }

  lemma ReadsBetween(n: nat)
    requires n < 2
    ensures SharedEnabled(Between(n), Disagreement()[n]) && NextShared(Between(n), Disagreement()[n]) == Between(n + 1)
  {
    assert 1 in StagedOnce().completions && ROW == Quote(StagedOnce(), 1) && DueRow(StagedOnce().completions[1], 1);
    assert NextShared(Between(n), Disagreement()[n]).at == Between(n + 1).at;
  }

  lemma AnswersBetween(n: nat)
    requires 2 <= n < 4
    ensures SharedEnabled(Between(n), Disagreement()[n]) && NextShared(Between(n), Disagreement()[n]) == Between(n + 1)
  {
    assert NextShared(Between(n), Disagreement()[n]).at == Between(n + 1).at;
  }

  lemma MarkBetween()
    ensures SharedEnabled(Between(4), Disagreement()[4]) && NextShared(Between(4), Disagreement()[4]) == Between(5)
  {
    CallsOnRow();
    var sh := Between(4);
    assert Called(sh.t, Marking(ROW), 2, Answered) == MarkedOnce();
    assert NextShared(sh, Disagreement()[4]).at == Between(5).at;
  }

  lemma RejectBetween()
    ensures SharedEnabled(Between(5), Disagreement()[5]) && NextShared(Between(5), Disagreement()[5]) == Between(6)
  {
    CallsOnRow();
    var sh := Between(5);
    assert Called(sh.t, Rejecting(ROW, "conflict"), 3, Answered) == RejectedAfter();
    assert NextShared(sh, Disagreement()[5]).at == Between(6).at;
  }

  lemma NextBetween(n: nat)
    requires n < 6
    ensures SharedEnabled(Between(n), Disagreement()[n]) && NextShared(Between(n), Disagreement()[n]) == Between(n + 1)
  {
    if n < 2 { ReadsBetween(n); }
    else if n < 4 { AnswersBetween(n); }
    else if n == 4 { MarkBetween(); }
    else { RejectBetween(); }
  }

  lemma {:induction false} RunBetween(n: nat)
    requires n <= 6
    ensures SharedRun(Between(n), Disagreement()[n..]) && AfterSteps(Between(n), Disagreement()[n..]) == Between(6)
    decreases 6 - n
  {
    if n < 6 {
      NextBetween(n);
      RunBetween(n + 1);
      assert Disagreement()[n..][0] == Disagreement()[n] && Disagreement()[n..][1..] == Disagreement()[n + 1..];
    } else {
      assert Disagreement()[6..] == [];
    }
  }

  lemma EndIs()
    ensures var sh := Between(6);
      && ID in sh.accepted && sh.staged[ID] == Succeeded && ID in sh.overruled
      && PhaseOf(sh.t, ID) == Finalized && 1 in sh.t.sessions && sh.t.sessions[1].state == Blocked
  {
    CallsOnRow();
  }

  /** The completion was accepted and marked, and its session is blocked all the same. */
  lemma AcceptedYetBlocked() returns (sh: Shared)
    ensures SharedRun(StagedStart(), Disagreement()) && sh == AfterSteps(StagedStart(), Disagreement())
    ensures ID in sh.accepted && ID in sh.staged && sh.staged[ID] == Succeeded && ID in sh.overruled
    ensures PhaseOf(sh.t, ID) == Finalized && 1 in sh.t.sessions && sh.t.sessions[1].state == Blocked
  {
    sh := Between(6);
    EndIs();
    RunBetween(0);
    assert Disagreement()[0..] == Disagreement() && Between(0) == StagedStart();
  }
}
