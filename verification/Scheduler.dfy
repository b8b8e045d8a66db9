/**
 * The coordinator object of src-tauri/src/application/execution_engine.rs: its health record, its notifier, and
 * the methods that move the worker pool. What the store, the worker channels and the clock answer are
 * parameters; every method is proved against the steps of `ExecutionPool` or the decisions of `ProjectionOutbox`.
 */
module Scheduler {
  import opened Prelude
  import Store = SchedulerStore
  import opened ExecutionPool
  import Outbox = ProjectionOutbox
  import PoolAndStore

  const LEASE_RENEW_INTERVAL: nat := 10_000
  const PROJECTION_RETRY_POLL: nat := 100
  const MAX_U64: nat := 0xFFFF_FFFF_FFFF_FFFF

  // ---------------------------------------------------------------- health

  datatype HealthStatus = Healthy | Degraded | Stopping | Halted

  datatype OperationError = OperationError(message: string, at: nat, consecutive: nat)

  datatype Report = Report(operation: string, message: string, at: nat, consecutive: nat)

  class SchedulerHealth {
    var status: HealthStatus
    var report: Option<Report>
    var errors: map<string, OperationError>
    var pendingCompletions: nat
    var pendingProjections: nat

    /** Up to shutdown: healthy exactly when nothing is unresolved, else reporting an unresolved operation truly. */
    ghost predicate Valid()
      reads this
    {
      && (status.Healthy? ==> errors == map[] && report.None?)
      && (status.Degraded? ==>
            report.Some? && report.value.operation in errors
            && errors[report.value.operation] ==
                OperationError(report.value.message, report.value.at, report.value.consecutive))
    }

    constructor ()
      ensures Valid() && status == Healthy && pendingCompletions == 0 && pendingProjections == 0
    {
      status, report, errors, pendingCompletions, pendingProjections := Healthy, None, map[], 0, 0;
    }

    method RecordError(operation: string, message: string, now: nat)
      requires Valid()
      modifies this`status, this`report, this`errors
      ensures Valid()
      ensures var count := if operation in old(errors) then Min(old(errors)[operation].consecutive + 1, MAX_U64) else 1;
              && errors == old(errors)[operation := OperationError(message, now, count)]
              && report == Some(Report(operation, message, now, count))
      ensures status == if old(status).Stopping? || old(status).Halted? then old(status) else Degraded
    {
      var consecutive := if operation in errors then Min(errors[operation].consecutive + 1, MAX_U64) else 1;
      errors := errors[operation := OperationError(message, now, consecutive)];
      if !(status.Stopping? || status.Halted?) {
        status := Degraded;
      }
      report := Some(Report(operation, message, now, consecutive));
    }

    method RecordSuccess(operation: string)
      requires Valid()
      modifies this`status, this`report, this`errors
      ensures Valid()
      ensures errors == old(errors) - {operation}
      ensures !old(status).Degraded? ==> status == old(status) && report == old(report)
      ensures old(status).Degraded? ==> (status == if errors == map[] then Healthy else Degraded)
      ensures old(status).Degraded? && errors != map[] ==>
        forall o :: o in errors ==> errors[o].at <= report.value.at
    {
      errors := errors - {operation};
      if status.Degraded? {
        var latest := LatestError();
        if latest.Some? {
          var e := errors[latest.value];
          report := Some(Report(latest.value, e.message, e.at, e.consecutive));
        } else {
          status, report := Healthy, None;
        }
      }
    }

    /** The unresolved operation with the latest time stamp; among equals the table's order decides. */
    method LatestError() returns (latest: Option<string>)
      ensures latest.None? <==> errors == map[]
      ensures latest.Some? ==> latest.value in errors && forall o :: o in errors ==>
        errors[o].at <= errors[latest.value].at
    {
      latest := None;
      var rest := errors.Keys;
      while rest != {}
        invariant rest <= errors.Keys
        invariant latest.None? <==> rest == errors.Keys
        invariant latest.Some? ==> latest.value in errors.Keys - rest
        invariant latest.Some? ==> forall o :: o in errors.Keys - rest ==> errors[o].at <= errors[latest.value].at
        decreases |rest|
      {
        var o :| o in rest;
        if latest.None? || errors[latest.value].at <= errors[o].at {
          latest := Some(o);
        }
        rest := rest - {o};
      }
      assert errors != map[] ==> errors.Keys != {};
    }
  }

  // ---------------------------------------------------------------- notifier

  datatype Update = Update(session: nat, sequence: nat)

  datatype Subscriber = Subscriber(id: nat, received: seq<Update>)

  function LatestIn(latest: map<nat, nat>, session: nat): nat { if session in latest then latest[session] else 0 }

  ghost predicate Ordered(received: seq<Update>, latest: map<nat, nat>) {
    && (forall i, j :: 0 <= i < j < |received| && received[i].session == received[j].session ==>
          received[i].sequence < received[j].sequence)
    && (forall i :: 0 <= i < |received| ==> received[i].sequence <= LatestIn(latest, received[i].session))
  }

  lemma StillInOrder(latest: map<nat, nat>, received: seq<Update>, update: Update)
    requires Ordered(received, latest) && update.sequence > LatestIn(latest, update.session)
    ensures Ordered(received + [update], latest[update.session := update.sequence])
  {
  }

  class TaskSessionNotifier {
    var subscribers: seq<Subscriber>
    var latest: map<nat, nat>

    function Latest(session: nat): nat
      reads this
    {
      LatestIn(latest, session)
    }

    ghost predicate InOrder(received: seq<Update>)
      reads this
    {
      Ordered(received, latest)
    }

    /** Each subscriber has seen strictly increasing sequence numbers of every session, none newer than the latest. */
    ghost predicate Valid()
      reads this
    {
      forall k :: 0 <= k < |subscribers| ==> InOrder(subscribers[k].received)
    }

    constructor ()
      ensures Valid() && subscribers == []
    {
      subscribers, latest := [], map[];
    }

    method Subscribe(id: nat)
      requires Valid()
      modifies this`subscribers
      ensures Valid() && subscribers == old(subscribers) + [Subscriber(id, [])]
    {
      subscribers := subscribers + [Subscriber(id, [])];
    }

    function Deliver(update: Update, open: set<nat>, to: seq<Subscriber>): seq<Subscriber> {
      if to == [] then []
      else
        var rest := Deliver(update, open, to[1..]);
        if to[0].id in open then [to[0].(received := to[0].received + [update])] + rest else rest
    }

    lemma {:induction false} DeliverFrom(update: Update, open: set<nat>, to: seq<Subscriber>)
      ensures forall d :: d in Deliver(update, open, to) ==>
        exists k :: 0 <= k < |to| && to[k].id in open && d == to[k].(received := to[k].received + [update])
    {
      if to != [] {
        DeliverFrom(update, open, to[1..]);
        forall d | d in Deliver(update, open, to)
          ensures exists k :: 0 <= k < |to| && to[k].id in open && d == to[k].(received := to[k].received + [update])
        {
          if d in Deliver(update, open, to[1..]) {
            var k :| 0 <= k < |to[1..]| && to[1..][k].id in open &&
                d == to[1..][k].(received := to[1..][k].received + [update]);
            assert to[k + 1] == to[1..][k];
          }
        }
      }
    }

    /** A subscriber whose receiver is gone (`open` lacks it) is dropped; an update that is not news goes to nobody. */
    method Publish(update: Update, open: set<nat>)
      requires Valid()
      modifies this
      ensures Valid()
      ensures update.sequence <= old(Latest(update.session)) ==>
        subscribers == old(subscribers) && latest == old(latest)
      ensures update.sequence > old(Latest(update.session)) ==>
        && latest == old(latest)[update.session := update.sequence]
        && subscribers == Deliver(update, open, old(subscribers))
    {
      if update.sequence <= Latest(update.session) {
        return;
      }
      latest := latest[update.session := update.sequence];
      subscribers := Deliver(update, open, subscribers);
      DeliverFrom(update, open, old(subscribers));
      forall k | 0 <= k < |subscribers| ensures InOrder(subscribers[k].received) {
        assert subscribers[k] in subscribers;
        var j :| 0 <= j < |old(subscribers)|
                 && subscribers[k] == old(subscribers)[j].(received := old(subscribers)[j].received + [update]);
        StillInOrder(old(latest), old(subscribers)[j].received, update);
      }
    }
  }

  // ---------------------------------------------------------------- coordinator

  datatype ClaimAnswer = ClaimFailed(error: string) | NothingToClaim | Handed(fence: Store.Fence)

  datatype RenewAnswer = Renewed(cancelling: bool) | NotRenewed | RenewFailed(error: string)

  datatype DispatchEnd = NoIdleWorker | QueueEmpty | ClaimError

  datatype CancelAnswer = CancelFailed | CancelDone(cancelling: bool, changed: bool)

  /** Anything but a renewal of a session that is not being cancelled raises the flag. */
  predicate Flags(answer: RenewAnswer) { answer != Renewed(false) }

  /** `after` is `before` with the flags of `done` raised where the answers say so, and nothing else changed. */
  ghost predicate FlagsRaised(before: map<nat, Assignment>, after: map<nat, Assignment>, done: set<nat>,
                              answers: map<nat, RenewAnswer>)
    requires done <= answers.Keys
  {
    && after.Keys == before.Keys
    && forall s :: s in before ==>
         after[s] == before[s].(cancelled := before[s].cancelled || (s in done && Flags(answers[s])))
  }

  lemma OneMoreFlagged(before: map<nat, Assignment>, middle: map<nat, Assignment>, after: map<nat, Assignment>,
                       done: set<nat>, s: nat, answers: map<nat, RenewAnswer>)
    requires done + {s} <= answers.Keys && s !in done && s in before
    requires FlagsRaised(before, middle, done, answers) && FlagsRaised(middle, after, {s}, answers)
    ensures FlagsRaised(before, after, done + {s}, answers)
  {
  }

  /** `after` is `before` with the flags of `done` raised, and nothing else changed. */
  ghost predicate Flagged(before: map<nat, Assignment>, after: map<nat, Assignment>, done: set<nat>) {
    && after.Keys == before.Keys
    && forall s :: s in before ==> after[s] == before[s].(cancelled := before[s].cancelled || s in done)
  }

  lemma OneMoreStopped(before: map<nat, Assignment>, middle: map<nat, Assignment>, after: map<nat, Assignment>,
                       done: set<nat>, s: nat)
    requires s in before && Flagged(before, middle, done) && after == middle[s := middle[s].(cancelled := true)]
    ensures Flagged(before, after, done + {s})
  {
  }

  // ---------------------------------------------------------------- store calls of the outbox

  datatype StoreCall = CallMark(row: Store.Staged) | CallFinalize(row: Store.Staged)
                     | CallRecordError(row: Store.Staged) | CallReject(row: Store.Staged, error: string)

  /** Finalizing is asked of the store only after it answered that the row is marked projected. */
  function CallsFor(reaction: Outbox.Reaction, c: Store.Staged, first: Option<bool>): seq<StoreCall> {
    match reaction
    case Ignore => []
    case NoteError(_) => [CallRecordError(c)]
    case RejectRow(error) => [CallReject(c, error)]
    case MarkThenFinalize => if first == Some(true) then [CallMark(c), CallFinalize(c)] else [CallMark(c)]
  }

  function Effect(t: Store.Tables, call: StoreCall, now: nat): Store.Tables {
    match call
    case CallMark(c) => Store.MarkProjected(t, c).0
    case CallFinalize(c) => Store.Finalize(t, c).0
    case CallRecordError(c) => Store.RecordError(t, c, now).0
    case CallReject(c, error) => Store.Reject(t, c, error).0
  }

  /** The tables after the calls, each of which may not have been committed. */
  function Effects(t: Store.Tables, calls: seq<StoreCall>, fates: seq<Outbox.Fate>, now: nat): Store.Tables
    requires |calls| <= |fates|
    decreases |calls|
  {
    if calls == [] then t
    else Effects(FatedEffect(t, calls[0], fates[0], now), calls[1..], fates[1..], now)
  }

  function FatedEffect(t: Store.Tables, call: StoreCall, fate: Outbox.Fate, now: nat): Store.Tables {
    if fate.NotCommitted? then t else Effect(t, call, now)
  }

  lemma EffectsOfOne(t: Store.Tables, a: StoreCall, fates: seq<Outbox.Fate>, now: nat)
    requires fates != []
    ensures Effects(t, [a], fates, now) == FatedEffect(t, a, fates[0], now)
  {
    assert [a][1..] == [];
  }

  lemma EffectsOfTwo(t: Store.Tables, a: StoreCall, b: StoreCall, f: Outbox.Fate, g: Outbox.Fate, now: nat)
    ensures Effects(t, [a, b], [f, g], now) == FatedEffect(FatedEffect(t, a, f, now), b, g, now)
  {
    assert [a, b][1..] == [b] && [f, g][1..] == [g];
    EffectsOfOne(FatedEffect(t, a, f, now), b, [g], now);
  }

  /** What the first call of a reaction answers, if an answer comes at all. */
  function FirstAnswer(t: Store.Tables, c: Store.Staged, fate: Outbox.Fate): Option<bool> {
    if fate.Answered? then Some(Store.MarkProjected(t, c).1) else None
  }

  /** The calls the coordinator makes move the tables as the system of `ProjectionOutbox` says its steps do. */
  lemma CallsRefineSystem(sys: Outbox.System, c: Store.Staged, result: Outbox.ProjectorResult, first: Outbox.Fate,
                          finalize: Outbox.Fate)
    ensures Outbox.AfterResult(sys, c, result, first, finalize).t
         == Effects(sys.t,
                    CallsFor(Outbox.ReactionTo(Outbox.FlightId(sys), c, result), c, FirstAnswer(sys.t, c, first)),
                        [first, finalize], sys.now)
  {
    match Outbox.ReactionTo(Outbox.FlightId(sys), c, result)
    case Ignore =>
    case NoteError(_) => EffectsOfOne(sys.t, CallRecordError(c), [first, finalize], sys.now);
    case RejectRow(error) => EffectsOfOne(sys.t, CallReject(c, error), [first, finalize], sys.now);
    case MarkThenFinalize =>
      EffectsOfOne(sys.t, CallMark(c), [first, finalize], sys.now);
      EffectsOfTwo(sys.t, CallMark(c), CallFinalize(c), first, finalize, sys.now);
  }

  /** What giving the projector its next row asks of the store. */
  function DispatchCalls(action: Outbox.Dispatch): seq<StoreCall> {
    if action.FinalizeFirst? then [CallFinalize(action.row)] else []
  }

  /** The same for the calls made before anything is sent. */
  lemma DispatchRefinesSystem(sys: Outbox.System, action: Outbox.Dispatch, finalize: Outbox.Fate, channelOpen: bool)
    ensures Outbox.AfterDispatch(sys, action, finalize, channelOpen).t ==
      Effects(sys.t, DispatchCalls(action), [finalize], sys.now)
    ensures Outbox.FlightId(Outbox.AfterDispatch(sys, action, finalize, channelOpen))
         == if action.Send? && channelOpen then Some(Outbox.IdOf(action.row)) else Outbox.FlightId(sys)
  {
    if action.FinalizeFirst? { EffectsOfOne(sys.t, CallFinalize(action.row), [finalize], sys.now); }
  }

  function WaitingSessions(active: map<nat, Assignment>): set<nat> {
    set s | s in active && active[s].outcome.Some?
  }

  lemma WaitingAfterClaim(active: map<nat, Assignment>, s: nat, a: Assignment)
    requires a.outcome.None?
    ensures |WaitingSessions(active)| == |WaitingSessions(active[s := a])| + if s in active && active[s].outcome.Some?
                                                                             then 1 else 0
  {
    assert WaitingSessions(active[s := a]) == WaitingSessions(active) - {s};
  }

  /** The store's answer for `s` frees exactly `s`, and no answer keeps its outcome for a later attempt. */
  ghost predicate Answered(before: map<nat, Assignment>, after: map<nat, Assignment>, s: nat,
                           answer: Option<Store.FinishResult>, now: nat) {
    && s in before && after.Keys <= before.Keys
    && (forall r :: r in before && r != s ==> r in after && after[r] == before[r])
    && (if answer.Some? then s !in after
        else s in after && after[s].outcome == before[s].outcome && after[s].nextAttempt > now)
  }

  lemma RetryAnswered(p: Pool, s: nat, answer: Option<Store.FinishResult>, now: nat)
    requires Waiting(p, s)
    ensures Answered(p.active, Step(p, if answer.Some? then Resolved(s) else Unresolved(s, now)).active, s, answer, now)
  {
    if answer.None? { RetryDelayShape(Min(p.active[s].attempts + 1, MAX_U32), 0); }
  }

  /** Every session of `done` was answered, and the others are as they were. */
  ghost predicate AllAnswered(before: map<nat, Assignment>, after: map<nat, Assignment>, done: set<nat>,
                              answers: map<nat, Option<Store.FinishResult>>, now: nat)
    requires done <= answers.Keys
  {
    && after.Keys <= before.Keys
    && (forall r :: r in before && r !in done ==> r in after && after[r] == before[r])
    && (forall s :: s in done && s in before ==>
          if answers[s].Some? then s !in after
          else s in after && after[s].outcome == before[s].outcome && after[s].nextAttempt > now)
  }

  ghost predicate AllWaiting(active: map<nat, Assignment>, sessions: set<nat>) {
    forall s :: s in sessions ==> s in active && active[s].outcome.Some?
  }

  lemma StillWaiting(before: map<nat, Assignment>, after: map<nat, Assignment>, rest: set<nat>, s: nat,
                     answer: Option<Store.FinishResult>, now: nat)
    requires AllWaiting(before, rest) && s in rest && Answered(before, after, s, answer, now)
    ensures AllWaiting(after, rest - {s})
  {
  }

  lemma OneLess(all: set<nat>, rest: set<nat>, s: nat)
    requires s in rest && rest <= all
    ensures s !in all - rest && all - (rest - {s}) == all - rest + {s}
  {
  }

  lemma OneMoreAnswered(before: map<nat, Assignment>, middle: map<nat, Assignment>, after: map<nat, Assignment>,
                        done: set<nat>, s: nat, answers: map<nat, Option<Store.FinishResult>>, now: nat)
    requires done + {s} <= answers.Keys && s !in done
    requires AllAnswered(before, middle, done, answers, now) && Answered(middle, after, s, answers[s], now)
    ensures AllAnswered(before, after, done + {s}, answers, now)
  {
  }

  /** One assignment handed out: to which worker, whether its channel took it, and the store's answer if not. */
  datatype Hand = Hand(worker: nat, fence: Store.Fence, channelOpen: bool, resolution: Option<Store.FinishResult>)

  /** The events of handing out one assignment. */
  function Handing(hand: Hand, now: nat): seq<PoolEvent> {
    [Claimed(hand.fence, now)] +
    if hand.channelOpen then []
    else [ChannelClosed(hand.worker, hand.fence.session),
          if hand.resolution.Some? then Resolved(hand.fence.session) else Unresolved(hand.fence.session, now)]
  }

  function Handings(hands: seq<Hand>, now: nat): seq<PoolEvent> {
    if hands == [] then [] else Handings(hands[..|hands| - 1], now) + Handing(hands[|hands| - 1], now)
  }

  lemma HandingsSnoc(hands: seq<Hand>, hand: Hand, now: nat)
    ensures Handings(hands + [hand], now) == Handings(hands, now) + Handing(hand, now)
  {
    assert (hands + [hand])[..|hands|] == hands;
  }

  /** What the world answers to one round of the dispatch loop. */
  method AskWorld() returns (claim: ClaimAnswer, channelOpen: bool, resolution: Option<Store.FinishResult>)
  {
    claim, channelOpen, resolution := *, *, *;
  }

  class Scheduler {
    var workers: seq<Worker>
    var active: map<nat, Assignment>
    var released: seq<nat>
    var projectionInFlight: Option<Outbox.ProjectionId>
    var nextLeaseRenewal: nat
    const health: SchedulerHealth

    ghost var claims: nat
    ghost var overwrites: nat
    ghost var trace: seq<PoolEvent>
    /** Recorded outcomes overwritten since the health record last counted them. */
    ghost var forgotten: nat

    ghost function View(): Pool
      reads this
    {
      Pool(workers, active, released, claims, overwrites)
    }

    /** The pool is what its trace of steps makes of an idle pool, and so everything proved of runs holds of it. */
    ghost predicate Core()
      reads this, health
    {
      health.Valid() && ReachedBy(View(), trace)
    }

    ghost predicate Valid()
      reads this, health
    {
      Core() && health.pendingCompletions == |WaitingSessions(active)| + forgotten
    }

    constructor (now: nat)
      ensures Valid() && fresh(health) && View() == IDLE_POOL && trace == [] && forgotten == 0
      ensures nextLeaseRenewal == now + LEASE_RENEW_INTERVAL && projectionInFlight.None?
    {
      workers := IDLE_POOL.workers;
      active, released, projectionInFlight := map[], [], None;
      nextLeaseRenewal := now + LEASE_RENEW_INTERVAL;
      health := new SchedulerHealth();
      claims, overwrites, trace, forgotten := 0, 0, [], 0;
      new;
      assert WaitingSessions(active) == {};
    }

    /** The trace grows by `e`. */
    twostate predicate Did(e: PoolEvent)
      reads this
    {
      && trace == old(trace) + [e]
      && Enabled(old(View()), e) && View() == Step(old(View()), e)
    }

    twostate lemma DidKeeps(e: PoolEvent)
      requires old(Core()) && Did(e) && health.Valid()
      ensures Core()
    {
      ReachedSnoc(old(View()), old(trace), e);
    }

    /** update_pending_worker_health */
    method CountWaiting()
      requires Core()
      modifies this`forgotten, health`pendingCompletions
      ensures Valid() && forgotten == 0 && View() == old(View())
    {
      health.pendingCompletions := |WaitingSessions(active)|;
      forgotten := 0;
    }

    /** The worker that holds `s`, looked for from the front. */
    method FindHolder(s: nat) returns (holder: Option<nat>)
      ensures holder == FirstHolder(workers, s, 0)
    {
      var i := 0;
      while i < |workers|
        invariant i <= |workers| && FirstHolder(workers, s, 0) == FirstHolder(workers, s, i)
      {
        if workers[i].session == Some(s) {
          return Some(i);
        }
        i := i + 1;
      }
      return None;
    }

    /** The store accepted or refused the completion of `s` for good: free its worker. */
    method Release(s: nat)
      requires Core() && Waiting(View(), s)
      modifies this`active, this`workers, this`released, this`trace
      ensures Did(Resolved(s)) && Core()
    {
      FirstHolderIs(workers, s, 0);
      var holder := FindHolder(s);
      active := active - {s};
      if holder.Some? {
        var i := holder.value;
        var w := workers[i];
        if !w.state.Stopped? {
          w := w.(state := Idle);
          released := released + [i];
        }
        workers := workers[i := w.(session := None, completed := w.completed + 1)];
      }
      trace := trace + [Resolved(s)];
      DidKeeps(Resolved(s));
    }

    /** The store failed to answer: keep the outcome and the worker, and try again later. */
    method Postpone(s: nat, now: nat)
      requires Core() && Waiting(View(), s)
      modifies this`active, this`trace
      ensures Did(Unresolved(s, now)) && Core()
    {
      var a := active[s];
      var attempts := Min(a.attempts + 1, MAX_U32);
      active := active[s := a.(attempts := attempts, nextAttempt := now + RetryDelay(attempts))];
      trace := trace + [Unresolved(s, now)];
      DidKeeps(Unresolved(s, now));
    }

    method TryResolveCompletion(s: nat, answer: Option<Store.FinishResult>, now: nat)
      requires Core()
      modifies this`active, this`workers, this`released, this`trace, this`forgotten
      modifies health`status, health`report, health`errors, health`pendingCompletions
      ensures Core()
      ensures !old(Waiting(View(), s)) ==>
        View() == old(View()) && trace == old(trace) && forgotten == old(forgotten) &&
            health.pendingCompletions == old(health.pendingCompletions)
      ensures old(Waiting(View(), s)) ==>
        Did(if answer.Some? then Resolved(s) else Unresolved(s, now)) && Valid() && forgotten == 0
    {
      if s !in active || active[s].outcome.None? {
        return;
      }
      if answer.Some? {
        Release(s);
        health.RecordSuccess("completion");
      } else {
        Postpone(s, now);
        health.RecordError("completion", "store", now);
      }
      CountWaiting();
    }

    method Holds(workerId: nat, s: nat) returns (known: bool)
      ensures known <==> exists i :: 0 <= i < |workers| && workers[i].id == workerId && workers[i].session == Some(s)
    {
      known := false;
      var i := 0;
      while i < |workers| && !known
        invariant i <= |workers|
        invariant known <==> exists k :: 0 <= k < i && workers[k].id == workerId && workers[k].session == Some(s)
      {
        known := workers[i].id == workerId && workers[i].session == Some(s);
        i := i + 1;
      }
    }

    /** A finish message counts only from the worker that holds the session, under the exact fence it was given. */
    method Finish(workerId: nat, fence: Store.Fence, outcome: Store.Outcome, answer: Option<Store.FinishResult>,
                  now: nat)
      requires Valid()
      modifies this`active, this`workers, this`released, this`trace, this`forgotten
      modifies health`status, health`report, health`errors, health`pendingCompletions
      ensures Valid()
      ensures !old(Accepts(View(), workerId, fence)) ==> View() == old(View()) && trace == old(trace)
      ensures old(Accepts(View(), workerId, fence)) ==>
        && trace == old(trace) + [Reported(workerId, fence, outcome, now),
                                  if answer.Some? then Resolved(fence.session) else Unresolved(fence.session, now)]
        && forgotten == 0
    {
      var known := Holds(workerId, fence.session);
      if !known || fence.session !in active || active[fence.session].fence != fence {
        return;
      }
      Report(workerId, fence, outcome, now);
      CountWaiting();
      TryResolveCompletion(fence.session, answer, now);
    }

    method Report(workerId: nat, fence: Store.Fence, outcome: Store.Outcome, now: nat)
      requires Core() && Accepts(View(), workerId, fence)
      modifies this`active, this`trace
      ensures Did(Reported(workerId, fence, outcome, now)) && Core()
    {
      active := active[fence.session := active[fence.session].(outcome := Some(outcome), nextAttempt := now)];
      trace := trace + [Reported(workerId, fence, outcome, now)];
      DidKeeps(Reported(workerId, fence, outcome, now));
    }

    /** Recorded outcomes whose time has come. */
    function Due(now: nat): set<nat>
      reads this
    {
      set s | s in active && active[s].outcome.Some? && active[s].nextAttempt <= now
    }

    /** Every outcome that is due is offered to the store once; the others are left alone. */
    method RetryPendingWorkerCompletions(answers: map<nat, Option<Store.FinishResult>>, now: nat)
      requires Valid() && Due(now) <= answers.Keys
      modifies this`active, this`workers, this`released, this`trace, this`forgotten
      modifies health`status, health`report, health`errors, health`pendingCompletions
      ensures Valid() && AllAnswered(old(active), active, old(Due(now)), answers, now)
    {
      var due := Due(now);
      var rest := due;
      while rest != {}
        invariant rest <= due && Valid() && AllWaiting(active, rest)
        invariant AllAnswered(old(active), active, due - rest, answers, now)
        decreases |rest|
      {
        var s :| s in rest;
        ghost var before := active;
        RetryOne(s, answers[s], now);
        OneLess(due, rest, s);
        OneMoreAnswered(old(active), before, active, due - rest, s, answers, now);
        StillWaiting(before, active, rest, s, answers[s], now);
        rest := rest - {s};
      }
      assert due - rest == due;
    }

    method RetryOne(s: nat, answer: Option<Store.FinishResult>, now: nat)
      requires Valid() && Waiting(View(), s)
      modifies this`active, this`workers, this`released, this`trace, this`forgotten
      modifies health`status, health`report, health`errors, health`pendingCompletions
      ensures Valid() && Answered(old(active), active, s, answer, now)
    {
      RetryAnswered(View(), s, answer, now);
      TryResolveCompletion(s, answer, now);
    }

    /** The earliest of: the next lease renewal, every recorded outcome's next attempt, and the projection poll. */
    method NextWakeDelay(now: nat) returns (delay: nat)
      ensures forall s :: s in active && active[s].outcome.Some? ==> now + delay <= Max(now, active[s].nextAttempt)
      ensures now + delay <= Max(now, nextLeaseRenewal)
      ensures projectionInFlight.None? && health.pendingProjections > 0 ==> delay <= PROJECTION_RETRY_POLL
      ensures delay > 0 ==>
        || now + delay == nextLeaseRenewal
        || (exists s :: s in active && active[s].outcome.Some? && now + delay == active[s].nextAttempt)
        || (projectionInFlight.None? && health.pendingProjections > 0 && delay == PROJECTION_RETRY_POLL)
    {
      var deadline := nextLeaseRenewal;
      var rest := active.Keys;
      while rest != {}
        invariant rest <= active.Keys && deadline <= nextLeaseRenewal
        invariant forall s :: s in active.Keys - rest && active[s].outcome.Some? ==> deadline <= active[s].nextAttempt
        invariant deadline == nextLeaseRenewal
               || exists s :: s in active && active[s].outcome.Some? && deadline == active[s].nextAttempt
        decreases |rest|
      {
        var s :| s in rest;
        if active[s].outcome.Some? {
          deadline := Min(deadline, active[s].nextAttempt);
        }
        rest := rest - {s};
      }
      if projectionInFlight.None? && health.pendingProjections > 0 {
        deadline := Min(deadline, now + PROJECTION_RETRY_POLL);
      }
      delay := if deadline < now then 0 else deadline - now;
    }

    /** The head of the release queue when nothing is active, else the first of the least used idle workers. */
    method ChooseWorker() returns (choice: Option<nat>)
      ensures choice == PickWorker(View())
    {
      if active == map[] && released != [] && released[0] < |workers| && workers[released[0]].state.Idle? {
        return Some(released[0]);
      }
      choice := None;
      var i := 0;
      while i < |workers|
        invariant i <= |workers| && choice == LeastUsed(workers, i)
        invariant choice.Some? ==> choice.value < i
      {
        if workers[i].state.Idle? && (choice.None? || workers[i].completed < workers[choice.value].completed) {
          choice := Some(i);
        }
        i := i + 1;
      }
    }

    /** One worker is given the assignment the store handed out. An entry for the same session is overwritten. */
    method Accept(i: nat, fence: Store.Fence, now: nat)
      requires Valid() && PickWorker(View()) == Some(i)
      modifies this`active, this`workers, this`released, this`trace, this`forgotten, this`claims, this`overwrites
      ensures Did(Claimed(fence, now)) && Valid()
      ensures forgotten == old(forgotten) + if old(Waiting(View(), fence.session)) then 1 else 0
      ensures health.pendingCompletions == |WaitingSessions(active)| <==> forgotten == 0
      ensures claims == old(claims) + 1
    {
      WaitingAfterClaim(active, fence.session, Assignment(fence, false, None, 0, now));
      if fence.session in active && active[fence.session].outcome.Some? {
        forgotten := forgotten + 1;
      }
      Install(i, fence, now);
    }

    method Install(i: nat, fence: Store.Fence, now: nat)
      requires Core() && PickWorker(View()) == Some(i)
      modifies this`active, this`workers, this`released, this`trace, this`claims, this`overwrites
      ensures Did(Claimed(fence, now)) && Core()
    {
      PickIsIdle(View());
      var s := fence.session;
      released := RemoveFirst(released, i);
      overwrites := if s in active then overwrites + 1 else overwrites;
      active := active[s := Assignment(fence, false, None, 0, now)];
      workers := workers[i := workers[i].(state := Running, session := Some(s))];
      claims := claims + 1;
      trace := trace + [Claimed(fence, now)];
      DidKeeps(Claimed(fence, now));
    }

    /** The worker's channel is closed: it is stopped, and a failure is recorded on its behalf. */
    method CloseChannel(i: nat, s: nat)
      requires Core() && Enabled(View(), ChannelClosed(i, s))
      modifies this`active, this`workers, this`trace
      ensures Did(ChannelClosed(i, s)) && Core()
    {
      active := active[s := active[s].(outcome := Some(CHANNEL_CLOSED))];
      workers := workers[i := workers[i].(state := Stopped)];
      trace := trace + [ChannelClosed(i, s)];
      DidKeeps(ChannelClosed(i, s));
    }

    /** The owner of a session asked for it to be cancelled. */
    method Cancel(s: nat, answer: CancelAnswer) returns (changed: Option<bool>)
      requires Valid()
      modifies this`active, this`trace
      ensures Valid() && changed == if answer.CancelDone? then Some(answer.changed) else None
      ensures if answer.CancelDone? && answer.cancelling && s in old(active) then Did(CancelFlagged(s))
              else View() == old(View()) && trace == old(trace)
    {
      if answer.CancelFailed? {
        return None;
      }
      if answer.cancelling && s in active {
        RaiseFlag(s);
      }
      return Some(answer.changed);
    }

    method RaiseFlag(s: nat)
      requires Core() && s in active
      modifies this`active, this`trace
      ensures Did(CancelFlagged(s)) && Core() && WaitingSessions(active) == old(WaitingSessions(active))
      ensures active == old(active)[s := old(active)[s].(cancelled := true)]
    {
      active := active[s := active[s].(cancelled := true)];
      trace := trace + [CancelFlagged(s)];
      DidKeeps(CancelFlagged(s));
    }

    /** Renew every lease, raise the flag of every session that lost its own, and recover what expired. */
    method RenewLeases(answers: map<nat, RenewAnswer>, recovered: bool, now: nat)
      requires Valid() && active.Keys <= answers.Keys
      modifies this`active, this`trace, this`nextLeaseRenewal
      modifies health`status, health`report, health`errors
      ensures Valid() && FlagsRaised(old(active), active, old(active.Keys), answers)
      ensures nextLeaseRenewal == now + LEASE_RENEW_INTERVAL
      ensures "recovery" in health.errors <==> !recovered
    {
      RenewEach(answers, now);
      if recovered {
        health.RecordSuccess("recovery");
      } else {
        health.RecordError("recovery", "store", now);
      }
      nextLeaseRenewal := now + LEASE_RENEW_INTERVAL;
    }

    method RenewEach(answers: map<nat, RenewAnswer>, now: nat)
      requires Valid() && active.Keys <= answers.Keys
      modifies this`active, this`trace
      modifies health`status, health`report, health`errors
      ensures Valid() && FlagsRaised(old(active), active, old(active.Keys), answers)
    {
      var rest := active.Keys;
      ghost var sessions := active.Keys;
      while rest != {}
        invariant rest <= sessions && Valid()
        invariant FlagsRaised(old(active), active, sessions - rest, answers)
        decreases |rest|
      {
        var s :| s in rest;
        ghost var before := active;
        RenewOne(s, answers, now);
        OneLess(sessions, rest, s);
        OneMoreFlagged(old(active), before, active, sessions - rest, s, answers);
        rest := rest - {s};
      }
      assert sessions - rest == sessions;
    }

    method RenewOne(s: nat, answers: map<nat, RenewAnswer>, now: nat)
      requires Valid() && s in active && s in answers
      modifies this`active, this`trace
      modifies health`status, health`report, health`errors
      ensures Valid() && FlagsRaised(old(active), active, {s}, answers)
    {
      NoteRenewal(answers[s], now);
      if Flags(answers[s]) {
        RaiseFlag(s);
      }
    }

    method NoteRenewal(answer: RenewAnswer, now: nat)
      requires Valid()
      modifies health`status, health`report, health`errors
      ensures Valid()
    {
      match answer {
        case Renewed(_) => health.RecordSuccess("renew");
        case NotRenewed =>
        case RenewFailed(error) => health.RecordError("renew", error, now);
      }
    }

    /** refresh_pending_projection_health */
    method CountProjections(count: Option<nat>, now: nat)
      requires health.Valid()
      modifies health`status, health`report, health`errors, health`pendingProjections
      ensures health.Valid()
      ensures health.pendingProjections == if count.Some? then count.value else old(health.pendingProjections)
      ensures "projection-count" in health.errors <==> count.None?
      ensures forall o :: o != "projection-count" ==> (o in health.errors <==> o in old(health.errors))
    {
      if count.Some? {
        health.RecordSuccess("projection-count");
        health.pendingProjections := count.value;
      } else {
        health.RecordError("projection-count", "store", now);
      }
    }

    /**
     * At most one row is given to the projector, and only when none is in flight and no projected row still
     * waits to be finalized. `projected` and `due` are the answers of the two queries, `None` a failed one.
     */
    method DispatchProjection(projected: Option<seq<Store.Staged>>, finalized: bool, due: Option<seq<Store.Staged>>,
                              channelOpen: bool, count: Option<nat>, now: nat)
      returns (action: Outbox.Dispatch, calls: seq<StoreCall>)
      requires Valid()
      modifies this`projectionInFlight
      modifies health`status, health`report, health`errors, health`pendingProjections
      ensures Valid() && View() == old(View())
      ensures action == Outbox.DispatchAction(old(projectionInFlight), projected, due) && calls == DispatchCalls(action)
      ensures projectionInFlight ==
              if action.Send? && channelOpen then Some(Outbox.IdOf(action.row)) else old(projectionInFlight)
      ensures action.FinalizeFirst? ==> ("projection-finalization" in health.errors <==> !finalized)
      ensures old(projectionInFlight).None? ==>
              ("pending-query" in health.errors <==> projected.None? || (projected.value == [] && due.None?))
    {
      if projectionInFlight.Some? {
        CountProjections(count, now);
        return Outbox.Idle, [];
      }
      if projected.None? {
        health.RecordError("pending-query", "store", now);
        return Outbox.Idle, [];
      }
      health.RecordSuccess("pending-query");
      if projected.value != [] {
        if finalized {
          health.RecordSuccess("projection-finalization");
        } else {
          health.RecordError("projection-finalization", "store", now);
        }
        CountProjections(count, now);
        return Outbox.FinalizeFirst(projected.value[0]), [CallFinalize(projected.value[0])];
      }
      if due.None? {
        health.RecordError("pending-query", "store", now);
        return Outbox.Idle, [];
      }
      if due.value == [] {
        CountProjections(count, now);
        return Outbox.Idle, [];
      }
      SendToProjector(due.value[0], channelOpen, now);
      CountProjections(count, now);
      return Outbox.Send(due.value[0]), [];
    }

    method SendToProjector(row: Store.Staged, channelOpen: bool, now: nat)
      requires Valid() && projectionInFlight.None?
      modifies this`projectionInFlight
      modifies health`status, health`report, health`errors
      ensures Valid() && View() == old(View())
      ensures projectionInFlight == if channelOpen then Some(Outbox.IdOf(row)) else None
      ensures forall o :: o != "channel" ==> (o in health.errors <==> o in old(health.errors))
    {
      projectionInFlight := Some(Outbox.IdOf(row));
      if !channelOpen {
        projectionInFlight := None;
        health.RecordError("channel", "Completion projection channel closed.", now);
      }
    }

    /**
     * The projector's answer. `first` is what the first store call answered, `None` a failure; `finalized`
     * whether finalizing was answered.
     */
    method ProjectionFinished(c: Store.Staged, result: Outbox.ProjectorResult, first: Option<bool>, finalized: bool,
                              count: Option<nat>, now: nat)
      returns (calls: seq<StoreCall>)
      requires Valid()
      modifies this`projectionInFlight
      modifies health`status, health`report, health`errors, health`pendingProjections
      ensures Valid() && View() == old(View())
      ensures calls == CallsFor(Outbox.ReactionTo(old(projectionInFlight), c, result), c, first)
      ensures old(projectionInFlight) != Some(Outbox.IdOf(c)) ==>
              projectionInFlight == old(projectionInFlight) && health.errors == old(health.errors) &&
                  health.status == old(health.status)
      ensures old(projectionInFlight) == Some(Outbox.IdOf(c)) ==> projectionInFlight.None?
      ensures old(projectionInFlight) == Some(Outbox.IdOf(c)) && result.Accepted? && first == Some(true) ==>
              ("projection-finalization" in health.errors <==> !finalized)
      ensures old(projectionInFlight) == Some(Outbox.IdOf(c)) && first.None? ==>
        "projection-bookkeeping" in health.errors
    {
      if projectionInFlight != Some(Outbox.IdOf(c)) {
        return [];
      }
      projectionInFlight := None;
      match result {
        case Retryable(error) =>
          calls := [CallRecordError(c)];
          NoteStored("projection", error, first, now);
        case RejectedBy(error) =>
          calls := [CallReject(c, error)];
          NoteStored("projection-rejected", error, first, now);
        case Accepted =>
          if first == Some(true) {
            calls := [CallMark(c), CallFinalize(c)];
            NoteFinalized(finalized, now);
          } else {
            calls := [CallMark(c)];
            NoteUnmarked(first, now);
          }
      }
      CountProjections(count, now);
    }

    method NoteStored(operation: string, error: string, stored: Option<bool>, now: nat)
      requires Valid()
      modifies health`status, health`report, health`errors
      ensures Valid() && (if stored.None? then "projection-bookkeeping" else operation) in health.errors
    {
      if stored.Some? {
        health.RecordError(operation, error, now);
      } else {
        health.RecordError("projection-bookkeeping", "store", now);
      }
    }

    method NoteFinalized(finalized: bool, now: nat)
      requires Valid()
      modifies health`status, health`report, health`errors
      ensures Valid() && ("projection-finalization" in health.errors <==> !finalized)
      ensures finalized ==> "projection" !in health.errors && "projection-bookkeeping" !in health.errors
    {
      if finalized {
        health.RecordSuccess("projection");
        health.RecordSuccess("projection-bookkeeping");
        health.RecordSuccess("projection-finalization");
      } else {
        health.RecordError("projection-finalization", "store", now);
      }
    }

    method NoteUnmarked(marked: Option<bool>, now: nat)
      requires Valid()
      modifies health`status, health`report, health`errors
      ensures Valid() && ("projection-bookkeeping" in health.errors <==> marked.None?)
    {
      if marked.Some? {
        health.RecordSuccess("projection-bookkeeping");
      } else {
        health.RecordError("projection-bookkeeping", "store", now);
      }
    }

    method StopWorkers()
      modifies this`workers
      ensures |workers| == |old(workers)|
      ensures forall i :: 0 <= i < |workers| ==> workers[i] == old(workers)[i].(state := Stopped, session := None)
    {
      var i := 0;
      while i < |workers|
        invariant i <= |workers| == |old(workers)|
        invariant forall k :: 0 <= k < i ==> workers[k] == old(workers)[k].(state := Stopped, session := None)
        invariant forall k :: i <= k < |workers| ==> workers[k] == old(workers)[k]
      {
        workers := workers[i := workers[i].(state := Stopped, session := None)];
        i := i + 1;
      }
    }

    /** Every active assignment is told to stop. */
    method RaiseFlags()
      modifies this`active
      ensures Flagged(old(active), active, old(active.Keys))
    {
      var rest := active.Keys;
      ghost var done := {};
      while rest != {}
        invariant done + rest == old(active.Keys) && Flagged(old(active), active, done)
        decreases |rest|
      {
        var s :| s in rest;
        OneMoreStopped(old(active), active, active[s := active[s].(cancelled := true)], done, s);
        active := active[s := active[s].(cancelled := true)];
        rest, done := rest - {s}, done + {s};
      }
    }

    /** Shutdown raises every flag, stops every worker and forgets every assignment; `left` is what it forgets. */
    method Shutdown(abandoned: bool, count: Option<nat>, now: nat) returns (left: map<nat, Assignment>)
      requires Valid()
      modifies this`active, this`workers, this`forgotten, health
      ensures Flagged(old(active), left, old(active.Keys)) && active == map[] && health.Valid()
      ensures |workers| == |old(workers)|
      ensures forall i :: 0 <= i < |workers| ==> workers[i] == old(workers)[i].(state := Stopped, session := None)
      ensures health.status.Halted? && health.pendingCompletions == 0
      ensures !abandoned ==> "shutdown" in health.errors
    {
      health.status := Stopping;
      RaiseFlags();
      left := active;
      if !abandoned {
        health.RecordError("shutdown", "store", now);
      }
      StopWorkers();
      active := map[];
      health.pendingCompletions := 0;
      forgotten := 0;
      CountProjections(count, now);
      health.status := Halted;
    }

    /** The dispatch loop may end here: no worker is idle, or the last claim was answered with nothing or an error. */
    ghost predicate Ended(end: DispatchEnd, last: Option<ClaimAnswer>)
      reads this, health
    {
      match end
      case NoIdleWorker => last.None? && IdleWorkers(workers) == {}
      case QueueEmpty => last == Some(NothingToClaim) && "claim" !in health.errors && PickWorker(View()).Some?
      case ClaimError => last.Some? && last.value.ClaimFailed? && "claim" in health.errors && PickWorker(View()).Some?
    }

    /** One turn of the dispatch loop: an assignment is handed out, or the loop ends. */
    method DispatchNext(now: nat) returns (hand: Option<Hand>, end: DispatchEnd, last: Option<ClaimAnswer>)
      requires Valid()
      modifies this`active, this`workers, this`released, this`trace, this`forgotten, this`claims, this`overwrites
      modifies health`status, health`report, health`errors, health`pendingCompletions
      ensures Valid()
      ensures hand.None? ==> Ended(end, last) && View() == old(View()) && trace == old(trace)
      ensures hand.Some? ==> trace == old(trace) + Handing(hand.value, now) && claims == old(claims) + 1
      ensures hand.Some? ==>
        || NotStopped(workers) < old(NotStopped(workers))
        || (NotStopped(workers) == old(NotStopped(workers)) && IdleWorkers(workers) < old(IdleWorkers(workers)))
    {
      var choice := ChooseWorker();
      if choice.None? {
        PickFindsIdle(View());
        return None, NoIdleWorker, None;
      }
      var claim, channelOpen, resolution := AskWorld();
      NoteClaim(claim, now);
      match claim {
        case ClaimFailed(_) => return None, ClaimError, Some(claim);
        case NothingToClaim => return None, QueueEmpty, Some(claim);
        case Handed(fence) =>
          var h := Hand(choice.value, fence, channelOpen, resolution);
          DispatchOne(h, now);
          return Some(h), QueueEmpty, None;
      }
    }

    /**
     * Hand out assignments until no worker is idle, the queue is empty, or the store fails. `hands` is what was handed
     * out, in order, and `last` the answer of the claim that ended the loop, if one did.
     */
    method DispatchAll(now: nat) returns (end: DispatchEnd, hands: seq<Hand>, last: Option<ClaimAnswer>)
      requires Valid()
      modifies this`active, this`workers, this`released, this`trace, this`forgotten, this`claims, this`overwrites
      modifies health`status, health`report, health`errors, health`pendingCompletions
      ensures Valid() && Ended(end, last)
      ensures trace == old(trace) + Handings(hands, now) && claims == old(claims) + |hands|
    {
      hands := [];
      while true
        invariant Valid() && trace == old(trace) + Handings(hands, now) && claims == old(claims) + |hands|
        decreases NotStopped(workers), IdleWorkers(workers)
      {
        var hand;
        hand, end, last := DispatchNext(now);
        if hand.None? {
          return;
        }
        HandingsSnoc(hands, hand.value, now);
        hands := hands + [hand.value];
      }
    }

    method NoteClaim(claim: ClaimAnswer, now: nat)
      requires Valid()
      modifies health`status, health`report, health`errors
      ensures Valid() && ("claim" in health.errors <==> claim.ClaimFailed?)
    {
      if claim.ClaimFailed? {
        health.RecordError("claim", claim.error, now);
      } else {
        health.RecordSuccess("claim");
      }
    }

    /** The worker turned out to be gone: its assignment fails, and is offered to the store at once. */
    method LoseWorker(i: nat, s: nat, resolution: Option<Store.FinishResult>, now: nat)
      requires Core() && Enabled(View(), ChannelClosed(i, s))
      modifies this`active, this`workers, this`released, this`trace, this`forgotten
      modifies health`status, health`report, health`errors, health`pendingCompletions
      ensures Valid()
      ensures trace == old(trace) + [ChannelClosed(i, s), if resolution.Some? then Resolved(s) else Unresolved(s, now)]
      ensures NotStopped(workers) < old(NotStopped(workers))
    {
      CloseUsesWorker(View(), i, s);
      CloseChannel(i, s);
      health.RecordError("channel", "Worker channel closed before dispatch.", now);
      TryResolveCompletion(s, resolution, now);
    }

    /** Handing out one assignment uses up an idle worker, or a worker for good. */
    method DispatchOne(hand: Hand, now: nat)
      requires Valid() && PickWorker(View()) == Some(hand.worker)
      modifies this`active, this`workers, this`released, this`trace, this`forgotten, this`claims, this`overwrites
      modifies health`status, health`report, health`errors, health`pendingCompletions
      ensures Valid()
      ensures trace == old(trace) + Handing(hand, now) && claims == old(claims) + 1
      ensures || NotStopped(workers) < old(NotStopped(workers))
              || (NotStopped(workers) == old(NotStopped(workers)) && IdleWorkers(workers) < old(IdleWorkers(workers)))
    {
      ClaimUsesIdle(View(), hand.fence, now);
      Accept(hand.worker, hand.fence, now);
      if !hand.channelOpen {
        LoseWorker(hand.worker, hand.fence.session, hand.resolution, now);
      }
    }
  }

  // ---------------------------------------------------------------- a count that is off by one

  /** Two more steps of a pool whose trace is known. */
  lemma TwoMore(p: Pool, q: Pool, trace: seq<PoolEvent>, a: PoolEvent, b: PoolEvent)
    requires ReachedBy(p, trace) && Enabled(p, a) && Enabled(Step(p, a), b) && ReachedBy(q, trace + [a, b])
    ensures q == Step(Step(p, a), b)
  {
    ReachedSnoc(p, trace, a);
    ReachedSnoc(Step(p, a), trace + [a], b);
    assert trace + [a, b] == trace + [a] + [b];
  }

  /** Worker 1 reported what it made of session 1, and the store did not answer. */
  method ReportUnanswered() returns (scheduler: Scheduler)
    ensures fresh(scheduler) && fresh(scheduler.health) && scheduler.Valid() && scheduler.forgotten == 0
    ensures scheduler.active.Keys == {1} && Waiting(scheduler.View(), 1) && PickWorker(scheduler.View()) == Some(1)
  {
    scheduler := new Scheduler(0);
    PoolAndStore.AfterFirst();
    scheduler.Accept(0, PoolAndStore.FIRST, 0);
    ghost var p := scheduler.View();
    assert p.workers[0].id == 1 && Accepts(p, 1, PoolAndStore.FIRST);
    ghost var trace := scheduler.trace;
    scheduler.Finish(1, PoolAndStore.FIRST, Store.SucceededPlain, None, 1);
    TwoMore(p, scheduler.View(), trace, Reported(1, PoolAndStore.FIRST, Store.SucceededPlain, 1), Unresolved(1, 1));
    assert scheduler.workers == p.workers && scheduler.active.Keys == {1};
  }

  /**
   * The outcome the store has not answered is overwritten by the second claim of its session, and the health record
   * goes on counting it: one completion pending, and no session waiting.
   */
  method ForgetOne() returns (scheduler: Scheduler)
    ensures fresh(scheduler) && scheduler.Valid() && scheduler.forgotten == 1
    ensures scheduler.health.pendingCompletions == 1 && WaitingSessions(scheduler.active) == {}
  {
    scheduler := ReportUnanswered();
    scheduler.Accept(1, PoolAndStore.SECOND, 40_000);
    assert scheduler.active.Keys == {1} && WaitingSessions(scheduler.active) == {};
  }
}
