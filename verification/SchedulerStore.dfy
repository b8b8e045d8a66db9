/**
 * The durable tables of the scheduler (src-tauri/src/infrastructure/scheduler_store.rs).
 *
 * A transaction is a function from the committed tables to the tables it commits and the answer it
 * returns; a refused transaction rolls back and leaves the tables as they were. Constraints declared in
 * the schema appear as refusals, so that their never being hit is something to prove.
 */
module SchedulerStore {
  import opened Prelude
  import Text

  datatype SessionState = Queued | Running | Cancelling | Committing | Succeeded | Failed | Blocked | Cancelled

  /** The session holds an assignment or an unfinished commit. */
  predicate Active(s: SessionState) { s.Running? || s.Cancelling? || s.Committing? }

  predicate Terminal(s: SessionState) { s.Succeeded? || s.Failed? || s.Blocked? || s.Cancelled? }

  datatype Ownership = Ownership(workspace: Option<string>, conversation: Option<string>,
                                 subject: Option<string>, run: Option<string>)

  // What the stored payload decodes to when recovery asks whether it is an Agent envelope.
  datatype PayloadKind = Plain | AgentEnvelope | Malformed

  datatype Session = Session(enqueueSequence: nat, owner: Ownership, kind: PayloadKind, state: SessionState,
                             activeAttempt: Option<nat>, token: nat, attemptCount: nat, lease: Option<nat>,
                             runtime: Option<string>, error: Option<string>)

  datatype AttemptState = AttemptRunning | AttemptCommitting | Interrupted | Ended(state: SessionState)

  datatype Attempt = Attempt(session: nat, number: nat, token: nat, owner: nat, state: AttemptState, lease: Option<nat>)

  /** An outbox row: a structured result staged for projection into the other database. */
  datatype Completion = Completion(attempt: nat, token: nat, terminal: SessionState, blockedReason: Option<string>,
                                   stagedAt: nat, failures: nat, nextProjectionAt: nat, projected: bool,
                                   finalized: bool)

  datatype Tables = Tables(sessions: map<nat, Session>, attempts: map<nat, Attempt>, completions: map<nat, Completion>,
                           nextEnqueue: nat, nextSession: nat, nextAttempt: nat)

  datatype Fence = Fence(session: nat, attempt: nat, number: nat, owner: nat, token: nat)

  /** The key the outbox methods use: the row of `session` under this attempt and token. */
  datatype Staged = Staged(session: nat, attempt: nat, token: nat, terminal: SessionState,
                           blockedReason: Option<string>)

  datatype Outcome =
    | SucceededPlain
    | SucceededStructured(terminal: SessionState, blockedReason: Option<string>, ownershipMatches: bool)
    | FailedWith(error: string)
    | BlockedWith(error: string)
    | CancelledOutcome

  datatype FinishResult = Applied | Stale

  datatype Refusal = NotFound | StaleFence | MalformedPayload | LostOwnership | ConstraintViolated | AttemptOverflow
                   | NotResumable | MissingRuntime | OwnershipMismatch | InvalidIdentity

  const EMPTY: Tables := Tables(map[], map[], map[], 1, 1, 1)
  const MAX_ATTEMPT: nat := 0xFFFF_FFFF
  const RECOVERY_REQUIRES_RETRY_FRESH: string := "retry_fresh_required"

  // ---------------------------------------------------------------- enqueue and claim

  function Enqueue(t: Tables, owner: Ownership, kind: PayloadKind): Tables {
    t.(sessions := t.sessions[t.nextSession :=
         Session(t.nextEnqueue, owner, kind, Queued, None, 0, 0, None, None, None)],
       nextEnqueue := t.nextEnqueue + 1, nextSession := t.nextSession + 1)
  }

  // SQL equality: a missing value equals nothing.
  predicate SameKey(a: Option<string>, b: Option<string>) { a.Some? && a == b }

  predicate Conflicts(a: Ownership, b: Ownership) {
    && SameKey(a.workspace, b.workspace)
    && (SameKey(a.conversation, b.conversation) || SameKey(a.subject, b.subject) || SameKey(a.run, b.run))
  }

  /** A queued session that shares no ownership with a session already being worked on. */
  ghost predicate Eligible(t: Tables, s: nat) {
    && s in t.sessions && t.sessions[s].state == Queued
    && forall o :: o in t.sessions && Active(t.sessions[o].state) ==>
        !Conflicts(t.sessions[s].owner, t.sessions[o].owner)
  }

  /** The eligible session that was enqueued first. */
  ghost predicate IsHead(t: Tables, s: nat) {
    && Eligible(t, s)
    && forall o :: Eligible(t, o) ==> t.sessions[s].enqueueSequence <= t.sessions[o].enqueueSequence
  }

  ghost function Candidate(t: Tables): Option<nat> {
    if s :| IsHead(t, s) then Some(s) else None
  }

  /** Attempts that hold authority at `now`. */
  ghost function Live(t: Tables, now: nat): set<nat> {
    set a | a in t.attempts && LiveAttempt(t.attempts[a], now)
  }

  predicate LiveAttempt(a: Attempt, now: nat) {
    a.state.AttemptRunning? && a.lease.Some? && a.lease.value > now
  }

  /** Would the new attempt row break UNIQUE(session, number), UNIQUE(session, token) or the one-running index? */
  ghost predicate AttemptInsertable(t: Tables, s: nat, number: nat, token: nat) {
    forall a :: a in t.attempts && t.attempts[a].session == s ==>
      t.attempts[a].number != number && t.attempts[a].token != token && !t.attempts[a].state.AttemptRunning?
  }

  ghost function Assign(t: Tables, s: nat, owner: nat, now: nat, lease: nat): (Tables, Result<Option<Fence>, Refusal>)
    requires s in t.sessions
  {
    var row := t.sessions[s];
    var number, token, a := row.attemptCount + 1, row.token + 1, t.nextAttempt;
    if number > MAX_ATTEMPT then (t, Err(AttemptOverflow))
    else if !AttemptInsertable(t, s, number, token) then (t, Err(ConstraintViolated))
    else
      (t.(attempts := t.attempts[a := Attempt(s, number, token, owner, AttemptRunning, Some(now + lease))],
          sessions := t.sessions[s := row.(state := Running, attemptCount := number, activeAttempt := Some(a),
                                           token := token, lease := Some(now + lease), error := None)],
          nextAttempt := a + 1),
       Ok(Some(Fence(s, a, number, owner, token))))
  }

  ghost function Claim(t: Tables, owner: nat, now: nat, lease: nat, limit: nat)
    : (Tables, Result<Option<Fence>, Refusal>)
  {
    match Recover(t, now)
    case Err(e) => (t, Err(e))
    case Ok(r) =>
      if |Live(r, now)| >= limit then (r, Ok(None))
      else
        match Candidate(r)
        case None => (r, Ok(None))
        case Some(s) =>
          match Assign(r, s, owner, now, lease)
          case (_, Err(e)) => (t, Err(e))
          case (t', answer) => (t', answer)
  }

  // ---------------------------------------------------------------- authority

  /** The attempt row and the session row both name this fence, and its lease has not run out. */
  predicate Authorized(t: Tables, f: Fence, now: nat) {
    && f.session in t.sessions && f.attempt in t.attempts
    && var row, a := t.sessions[f.session], t.attempts[f.attempt];
    && row.activeAttempt == Some(f.attempt) && row.token == f.token && (row.state.Running? || row.state.Cancelling?)
    && row.lease.Some? && row.lease.value > now
    && AttemptMatches(a, f) && LiveAttempt(a, now)
  }

  predicate AttemptMatches(a: Attempt, f: Fence) {
    a.session == f.session && a.number == f.number && a.owner == f.owner && a.token == f.token
  }

  function Renew(t: Tables, f: Fence, now: nat, lease: nat): (Tables, bool) {
    if f.attempt in t.attempts && AttemptMatches(t.attempts[f.attempt], f) &&
        LiveAttempt(t.attempts[f.attempt], now) then
      var t1 := t.(attempts := t.attempts[f.attempt := t.attempts[f.attempt].(lease := Some(now + lease))]);
      if f.session in t.sessions then
        var row := t.sessions[f.session];
        if && row.activeAttempt == Some(f.attempt) && row.token == f.token
           && (row.state.Running? || row.state.Cancelling?)
           && row.lease.Some? && row.lease.value > now
        then (t1.(sessions := t.sessions[f.session := row.(lease := Some(now + lease))]), true)
        else (t1, true)
      else (t1, true)
    else (t, false)
  }

  function Cancel(t: Tables, s: nat): (Tables, Result<bool, Refusal>) {
    if s !in t.sessions then (t, Err(NotFound))
    else
      match t.sessions[s].state
      case Queued => (t.(sessions := t.sessions[s := t.sessions[s].(state := Cancelled)]), Ok(true))
      case Running => (t.(sessions := t.sessions[s := t.sessions[s].(state := Cancelling)]), Ok(true))
      case _ => (t, Ok(false))
  }

  predicate IsControl(c: char) { c < ' ' || '\U{7F}' <= c <= '\U{9F}' }

  /** An identity that may be bound, once trimmed. */
  predicate IdentityOk(identity: string) {
    identity != "" && Text.Bytes(identity) <= 256 && forall i :: 0 <= i < |identity| ==> !IsControl(identity[i])
  }

  /** Recovery treats an identity of nothing but white space as missing. */
  predicate NoIdentity(runtime: Option<string>) { runtime.None? || Text.Trim(runtime.value) == "" }

  function BindRuntime(t: Tables, f: Fence, now: nat, identity: string): (Tables, Result<bool, Refusal>) {
    BindTrimmed(t, f, now, Text.Trim(identity))
  }

  function BindTrimmed(t: Tables, f: Fence, now: nat, identity: string): (Tables, Result<bool, Refusal>) {
    if !IdentityOk(identity) then (t, Err(InvalidIdentity))
    else if !Authorized(t, f, now) || !t.sessions[f.session].state.Running? then (t, Err(StaleFence))
    else if t.sessions[f.session].runtime.Some? then
      if t.sessions[f.session].runtime.value == identity then (t, Ok(false)) else (t, Err(OwnershipMismatch))
    else (t.(sessions := t.sessions[f.session := t.sessions[f.session].(runtime := Some(identity))]), Ok(true))
  }

  function Terminalize(t: Tables, f: Fence, state: SessionState, error: Option<string>): Tables
    requires f.session in t.sessions && f.attempt in t.attempts
  {
    t.(attempts := t.attempts[f.attempt := t.attempts[f.attempt].(state := Ended(state), lease := None)],
       sessions := t.sessions[f.session := t.sessions[f.session].(state := state, activeAttempt := None, lease := None,
           error := error)])
  }

  function Stage(t: Tables, f: Fence, terminal: SessionState, blockedReason: Option<string>, now: nat)
    : (Tables, Result<FinishResult, Refusal>)
    requires f.session in t.sessions && f.attempt in t.attempts
  {
    if f.session in t.completions then (t, Err(ConstraintViolated))
    else
      (t.(completions := t.completions[f.session :=
            Completion(f.attempt, f.token, terminal, blockedReason, now, 0, now, false, false)],
          attempts := t.attempts[f.attempt := t.attempts[f.attempt].(state := AttemptCommitting, lease := None)],
          sessions := t.sessions[f.session := t.sessions[f.session].(state := Committing, lease := None,
              error := None)]),
       Ok(Applied))
  }

  /** A cancellation requested meanwhile wins over whatever the worker reports. */
  function Resolve(t: Tables, f: Fence, outcome: Outcome, now: nat): (Tables, Result<FinishResult, Refusal>) {
    if !Authorized(t, f, now) then (t, Ok(Stale))
    else if t.sessions[f.session].state.Cancelling? then (Terminalize(t, f, Cancelled, None), Ok(Applied))
    else
      match outcome
      case FailedWith(error) => (Terminalize(t, f, Failed, Some(error)), Ok(Applied))
      case BlockedWith(error) => (Terminalize(t, f, Blocked, Some(error)), Ok(Applied))
      case CancelledOutcome => (Terminalize(t, f, Cancelled, None), Ok(Applied))
      case SucceededPlain => (Terminalize(t, f, Succeeded, None), Ok(Applied))
      case SucceededStructured(terminal, reason, matches) =>
        if !matches then (t, Err(OwnershipMismatch))
        else Stage(t, f, if terminal.Blocked? then Blocked else Succeeded, reason, now)
  }

  // ---------------------------------------------------------------- recovery

  ghost function Expired(t: Tables, now: nat): set<nat> {
    set a | a in t.attempts && t.attempts[a].state.AttemptRunning? && t.attempts[a].lease.Some? &&
        t.attempts[a].lease.value <= now
  }

  ghost function OwnedBy(t: Tables, owner: nat): set<nat> {
    set a | a in t.attempts && t.attempts[a].state.AttemptRunning? && t.attempts[a].owner == owner
  }

  function RecoveredState(row: Session): SessionState {
    if row.state.Cancelling? then Cancelled
    else if row.kind.AgentEnvelope? && NoIdentity(row.runtime) then Blocked
    else Queued
  }

  function RecoverOne(t: Tables, a: nat): Result<Tables, Refusal>
    requires a in t.attempts
  {
    var s := t.attempts[a].session;
    if s !in t.sessions then Ok(t)
    else
      var row := t.sessions[s];
      if row.kind.Malformed? then Err(MalformedPayload)
      else if row.activeAttempt != Some(a) || !(row.state.Running? || row.state.Cancelling?) then Err(LostOwnership)
      else
        var next := RecoveredState(row);
        Ok(t.(attempts := t.attempts[a := t.attempts[a].(state := Interrupted, lease := None)],
              sessions := t.sessions[s := row.(state := next, activeAttempt := None, lease := None,
                                               error := if next.Blocked? then Some(RECOVERY_REQUIRES_RETRY_FRESH)
                                                        else None)]))
  }

  /** The next row of the recovery query, which does not say in what order it returns them. */
  ghost function First(rows: set<nat>): (a: nat)
    requires rows != {}
    ensures a in rows
  {
    var a :| a in rows; a
  }

  /** Recovery goes over the selected rows one by one and is rolled back as a whole if one of them is refused. */
  ghost function RecoverEach(t: Tables, rows: set<nat>): Result<Tables, Refusal>
    decreases |rows|
  {
    if rows == {} then Ok(t)
    else
      var a := First(rows);
      if a !in t.attempts then Err(LostOwnership)
      else
        match RecoverOne(t, a)
        case Err(e) => Err(e)
        case Ok(t') => RecoverEach(t', rows - {a})
  }

  ghost function Recover(t: Tables, now: nat): Result<Tables, Refusal> {
    RecoverEach(t, Expired(t, now))
  }

  ghost function AbandonOwner(t: Tables, owner: nat): Result<Tables, Refusal> {
    RecoverEach(t, OwnedBy(t, owner))
  }

  // ---------------------------------------------------------------- outbox

  predicate RowMatches(t: Tables, c: Staged) {
    && c.session in t.completions
    && t.completions[c.session].attempt == c.attempt && t.completions[c.session].token == c.token
    && !t.completions[c.session].finalized
  }

  function ProjectionRetryDelay(attempt: nat): nat {
    Min(100 * Pow2(Min(Max(attempt - 1, 0), 63)), 30_000)
  }

  function FailedOnce(row: Completion, now: nat): Completion {
    row.(failures := row.failures + 1, nextProjectionAt := now + ProjectionRetryDelay(row.failures + 1))
  }

  function RecordError(t: Tables, c: Staged, now: nat): (Tables, bool) {
    if !RowMatches(t, c) then (t, false)
    else (t.(completions := t.completions[c.session := FailedOnce(t.completions[c.session], now)]), true)
  }

  predicate CommittingUnder(t: Tables, c: Staged) {
    && c.session in t.sessions
    && t.sessions[c.session].activeAttempt == Some(c.attempt) && t.sessions[c.session].token == c.token
    && t.sessions[c.session].state.Committing?
  }

  function EndAttempt(t: Tables, a: nat, state: SessionState): map<nat, Attempt> {
    if a in t.attempts && t.attempts[a].state.AttemptCommitting?
    then t.attempts[a := t.attempts[a].(state := Ended(state))]
    else t.attempts
  }

  function Reject(t: Tables, c: Staged, error: string): (Tables, FinishResult) {
    if !CommittingUnder(t, c) then (t, Stale)
    else
      var t1 := t.(sessions := t.sessions[c.session := t.sessions[c.session].(state := Blocked, activeAttempt := None,
                                                                             lease := None, error := Some(error))],
                   attempts := EndAttempt(t, c.attempt, Blocked));
      if RowMatches(t, c) then
        var row := t.completions[c.session];
        (t1.(completions := t.completions[c.session := row.(terminal := Blocked, failures := row.failures + 1,
                                                            finalized := true)]), Applied)
      else (t1, Applied)
  }

  function MarkProjected(t: Tables, c: Staged): (Tables, bool) {
    if RowMatches(t, c)
    then (t.(completions := t.completions[c.session := t.completions[c.session].(projected := true)]), true)
    else (t, false)
  }

  function Finalize(t: Tables, c: Staged): (Tables, FinishResult) {
    if !RowMatches(t, c) || !t.completions[c.session].projected || !CommittingUnder(t, c) then (t, Stale)
    else
      (t.(sessions := t.sessions[c.session := t.sessions[c.session].(state := c.terminal, activeAttempt := None,
                                  error := if c.terminal.Blocked? then c.blockedReason else None)],
          attempts := EndAttempt(t, c.attempt, c.terminal),
          completions := t.completions[c.session := t.completions[c.session].(finalized := true)]), Applied)
  }

  // ---------------------------------------------------------------- resume and removal

  ghost predicate ApprovalRequired(error: Option<string>) {
    error.Some? && exists i :: 0 <= i && "[approval_required]" <= Drop(error.value, i)
  }

  ghost function Drop(text: string, i: int): string { if 0 <= i <= |text| then text[i..] else "" }

  ghost function Resume(t: Tables, s: nat, owner: Ownership, kind: PayloadKind, byApproval: bool)
    : (Tables, Result<bool, Refusal>)
  {
    if s !in t.sessions then (t, Err(NotFound))
    else
      var row := t.sessions[s];
      if byApproval && !(row.state.Blocked? && ApprovalRequired(row.error)) then (t, Err(NotResumable))
      else if !byApproval && (!(row.state.Blocked? || row.state.Failed?) || ApprovalRequired(row.error))
           then (t, Err(NotResumable))
      else if row.runtime.None? then (t, Err(MissingRuntime))
      else if row.owner.workspace != owner.workspace || row.owner.conversation != owner.conversation ||
          row.owner.subject != owner.subject
      then (t, Err(OwnershipMismatch))
      else
        (t.(sessions := t.sessions[s := row.(enqueueSequence := t.nextEnqueue, owner := row.owner.(run := owner.run),
                                             kind := kind,
                                             state := Queued, activeAttempt := None, lease := None, error := None)],
            completions := t.completions - {s},
            nextEnqueue := t.nextEnqueue + 1), Ok(true))
  }

  /** ON DELETE CASCADE takes the attempts and the outbox row with the session. */
  function RemoveTerminal(t: Tables, s: nat): (Tables, bool) {
    if s !in t.sessions || !Terminal(t.sessions[s].state) then (t, false)
    else
      (t.(sessions := t.sessions - {s},
          attempts := map a | a in t.attempts && t.attempts[a].session != s :: t.attempts[a],
          completions := t.completions - {s}), true)
  }
}
