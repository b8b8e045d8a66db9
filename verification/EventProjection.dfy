/**
 * Projection of Task Session events onto an Agent run's session, batched (src/lib/agentEventProjection.ts).
 *
 * Events are merged into one pending projection and applied together a moment later. The question is when
 * that comes to the same as applying them one by one.
 */
module EventProjection {
  import opened Prelude
  import Store = SchedulerStore

  // A log; `progress` says whether its label is "progress".
  datatype Log = Log(id: nat, progress: bool, text: nat)

  datatype Projection = Projection(progress: Option<int>, state: Option<Store.SessionState>, logs: seq<Log>)

  datatype Session = Session(progress: int, state: Option<Store.SessionState>, logs: seq<Log>)

  const NO_PROJECTION: Projection := Projection(None, None, [])

  predicate IsTerminal(state: Option<Store.SessionState>) { state.Some? && Store.Terminal(state.value) }

  function Reconcile(current: Option<Store.SessionState>,
                     incoming: Option<Store.SessionState>): Option<Store.SessionState> {
    if incoming.None? || IsTerminal(current) then current else incoming
  }

  // ---------------------------------------------------------------- logs

  function Ids(logs: seq<Log>): set<nat> { set k | 0 <= k < |logs| :: logs[k].id }

  predicate UniqueIds(logs: seq<Log>) { forall i, j :: 0 <= i < j < |logs| ==> logs[i].id != logs[j].id }

  function AddLog(logs: seq<Log>, log: Log): seq<Log> {
    if log.id in Ids(logs) then logs
    else if Replaces(logs, log) then logs[|logs| - 1 := log]
    else logs + [log]
  }

  function AddLogs(logs: seq<Log>, incoming: seq<Log>): seq<Log>
    decreases |incoming|
  {
    if incoming == [] then logs else AddLogs(AddLog(logs, incoming[0]), incoming[1..])
  }

  /** Whether `log` replaces the last of the logs. */
  predicate Replaces(logs: seq<Log>, log: Log) { log.progress && logs != [] && logs[|logs| - 1].progress }

  /** The same with the set of known ids kept on the side, from which the id of a replaced log is deleted. */
  function AddKnown(logs: seq<Log>, ids: set<nat>, log: Log): (seq<Log>, set<nat>) {
    if log.id in ids then (logs, ids)
    else if Replaces(logs, log) then (logs[|logs| - 1 := log], ids - {logs[|logs| - 1].id} + {log.id})
    else (logs + [log], ids + {log.id})
  }

  function MergedLogs(logs: seq<Log>, ids: set<nat>, incoming: seq<Log>): seq<Log>
    decreases |incoming|
  {
    if incoming == [] then logs
    else
      var (more, known) := AddKnown(logs, ids, incoming[0]);
      MergedLogs(more, known, incoming[1..])
  }

  method MergeLogs(current: seq<Log>, incoming: seq<Log>) returns (logs: seq<Log>)
    ensures logs == MergedLogs(current, Ids(current), incoming)
  {
    logs := current;
    var ids := Ids(logs);
    for i := 0 to |incoming|
      invariant MergedLogs(current, Ids(current), incoming) == MergedLogs(logs, ids, incoming[i..])
    {
      var log := incoming[i];
      assert incoming[i..][0] == log && incoming[i..][1..] == incoming[i + 1..];
      if log.id !in ids {
        if log.progress && logs != [] && logs[|logs| - 1].progress {
          ids := ids - {logs[|logs| - 1].id};
          logs := logs[|logs| - 1 := log];
        } else {
          logs := logs + [log];
        }
        ids := ids + {log.id};
      }
    }
  }

  /** From logs without repeated ids, the set on the side is always the ids of the logs, and nothing is added twice. */
  lemma {:induction false} MergedIsAdded(logs: seq<Log>, incoming: seq<Log>)
    requires UniqueIds(logs)
    ensures MergedLogs(logs, Ids(logs), incoming) == AddLogs(logs, incoming) && UniqueIds(AddLogs(logs, incoming))
    decreases |incoming|
  {
    if incoming != [] {
      if incoming[0].id !in Ids(logs) { IdsAfter(logs, incoming[0]); }
      assert UniqueIds(AddLog(logs, incoming[0]));
      MergedIsAdded(AddLog(logs, incoming[0]), incoming[1..]);
    }
  }

  /** With an id listed twice it is not: replacing the second deletes the id of the first, which can then come again. */
  lemma RepeatedIdComesAgain()
    ensures var logs := [Log(1, false, 0), Log(1, true, 0)];
      MergedLogs(logs, Ids(logs), [Log(2, true, 0), Log(1, false, 1)]) ==
          [Log(1, false, 0), Log(2, true, 0), Log(1, false, 1)]
  {
    var logs, incoming := [Log(1, false, 0), Log(1, true, 0)], [Log(2, true, 0), Log(1, false, 1)];
    assert logs[0].id == 1 && Ids(logs) == {1};
    var (more, known) := AddKnown(logs, Ids(logs), incoming[0]);
    assert more == [Log(1, false, 0), Log(2, true, 0)] && known == {2};
    assert incoming[1..] == [incoming[1]] && [incoming[1]][1..] == [];
    assert AddKnown(more, known, incoming[1]).0 == more + [incoming[1]];
  }

  lemma IdsAfter(logs: seq<Log>, log: Log)
    requires UniqueIds(logs) && log.id !in Ids(logs)
    ensures Ids(AddLog(logs, log))
         == (if Replaces(logs, log) then Ids(logs) - {logs[|logs| - 1].id} else Ids(logs)) + {log.id}
  {
    var r := AddLog(logs, log);
    if Replaces(logs, log) {
      forall id | id in Ids(logs) - {logs[|logs| - 1].id} ensures id in Ids(r) {
        var k :| 0 <= k < |logs| && logs[k].id == id;
        assert r[k].id == id;
      }
      assert r[|r| - 1].id == log.id;
    } else {
      forall id | id in Ids(logs) ensures id in Ids(r) {
        var k :| 0 <= k < |logs| && logs[k].id == id;
        assert r[k].id == id;
      }
      assert r[|logs|].id == log.id;
    }
  }

  predicate NotProgress(log: Log) { !log.progress }

  lemma OtherLogsStay(logs: seq<Log>, ids: set<nat>, log: Log)
    ensures Filter(logs, NotProgress) <= Filter(AddKnown(logs, ids, log).0, NotProgress)
  {
    if log.id !in ids && Replaces(logs, log) {
      var last := |logs| - 1;
      assert logs == logs[..last] + [logs[last]];
      FilterConcat(logs[..last], [logs[last]], NotProgress);
      assert logs[last := log] == logs[..last] + [log];
      FilterConcat(logs[..last], [log], NotProgress);
    } else {
      FilterConcat(logs, [log], NotProgress);
    }
  }

  /** Only progress logs give way: the others stay, in order, and new ones go behind them. */
  lemma {:induction false} OthersStay(logs: seq<Log>, ids: set<nat>, incoming: seq<Log>)
    ensures Filter(logs, NotProgress) <= Filter(MergedLogs(logs, ids, incoming), NotProgress)
    decreases |incoming|
  {
    if incoming != [] {
      OtherLogsStay(logs, ids, incoming[0]);
      var (more, known) := AddKnown(logs, ids, incoming[0]);
      OthersStay(more, known, incoming[1..]);
    }
  }

  // ---------------------------------------------------------------- merging and applying

  function MaxOver(current: Option<int>, incoming: int): int {
    Max(if current.Some? then current.value else 0, incoming)
  }

  function Merge(current: Projection, incoming: Projection): Projection {
    if IsTerminal(current.state) && incoming.state != current.state then current
    else
      Projection(if incoming.progress.None? then current.progress
                 else Some(MaxOver(current.progress, incoming.progress.value)),
                 Reconcile(current.state, incoming.state),
                 MergedLogs(current.logs, Ids(current.logs), incoming.logs))
  }

  /** The pending projection after the events `ps`. */
  function Batch(ps: seq<Projection>): Projection {
    if ps == [] then NO_PROJECTION else Merge(Batch(ps[..|ps| - 1]), ps[|ps| - 1])
  }

  function NewLogs(logs: seq<Log>, incoming: seq<Log>): seq<Log> {
    Filter(incoming, (log: Log) => log.id !in Ids(logs))
  }

  function Apply(s: Session, p: Projection, maxLogs: nat): Session {
    if IsTerminal(s.state) && p.state != s.state then s
    else
      var added := NewLogs(s.logs, p.logs);
      Session(if p.progress.None? then s.progress else Max(s.progress, Min(100, p.progress.value)),
              Reconcile(s.state, p.state),
              if added == [] then s.logs else LastOf(s.logs + added, maxLogs))
  }

  function ApplyEach(s: Session, ps: seq<Projection>, maxLogs: nat): Session {
    if ps == [] then s else Apply(ApplyEach(s, ps[..|ps| - 1], maxLogs), ps[|ps| - 1], maxLogs)
  }

  // ---------------------------------------------------------------- when batching is sound

  /** Applying the batch and applying one by one agree on state and progress. */
  predicate Agree(s: Session, ps: seq<Projection>, maxLogs: nat) {
    var batched, stepped := Apply(s, Batch(ps), maxLogs), ApplyEach(s, ps, maxLogs);
    batched.state == stepped.state && batched.progress == stepped.progress
  }

  /** The session as the batch so far would leave it. */
  predicate Mirrors(s: Session, batch: Projection, stepped: Session) {
    && stepped.state == (if batch.state.Some? then batch.state else s.state)
    && stepped.progress ==
        (if batch.progress.Some? then Max(s.progress, Min(100, batch.progress.value)) else s.progress)
    && (batch.progress.Some? ==> batch.progress.value >= 0)
  }

  lemma {:induction false} SteppedMirrorsBatch(s: Session, ps: seq<Projection>, maxLogs: nat)
    requires s.progress >= 0 && !IsTerminal(s.state)
    ensures Mirrors(s, Batch(ps), ApplyEach(s, ps, maxLogs))
  {
    if ps != [] { SteppedMirrorsBatch(s, ps[..|ps| - 1], maxLogs); }
  }

  lemma {:induction false} FullTerminalStays(s: Session, ps: seq<Projection>, maxLogs: nat)
    requires s.progress >= 100 && IsTerminal(s.state)
    ensures var r := ApplyEach(s, ps, maxLogs); r.state == s.state && r.progress == s.progress
  {
    if ps != [] { FullTerminalStays(s, ps[..|ps| - 1], maxLogs); }
  }

  /** A session for which batching may go wrong, and the batch for which it does. */
  function Witness(s: Session): seq<Projection> {
    if IsTerminal(s.state) then [Projection(Some(100), None, []), Projection(None, s.state, [])]
    else [Projection(Some(s.progress), None, [])]
  }

  lemma WitnessDisagrees(s: Session, maxLogs: nat)
    requires !(s.progress >= 0 && (!IsTerminal(s.state) || s.progress >= 100))
    ensures !Agree(s, Witness(s), maxLogs)
  {
    var ps := Witness(s);
    if IsTerminal(s.state) {
      assert ps[..1] == [ps[0]] && [ps[0]][..0] == [];
      assert Batch([ps[0]]) == Merge(Batch([]), ps[0]) == Projection(Some(100), None, []);
      assert ApplyEach(s, [ps[0]], maxLogs) == Apply(ApplyEach(s, [], maxLogs), ps[0], maxLogs) == s;
      assert Batch(ps) == Merge(Batch([ps[0]]), ps[1]);
      assert ApplyEach(s, ps, maxLogs) == Apply(ApplyEach(s, [ps[0]], maxLogs), ps[1], maxLogs);
    } else {
      assert ps[..0] == [];
      assert Batch(ps) == Merge(Batch([]), ps[0]);
      assert ApplyEach(s, ps, maxLogs) == Apply(ApplyEach(s, [], maxLogs), ps[0], maxLogs);
    }
  }

  lemma BatchAgrees(s: Session, ps: seq<Projection>, maxLogs: nat)
    requires s.progress >= 0 && (!IsTerminal(s.state) || s.progress >= 100)
    ensures Agree(s, ps, maxLogs)
  {
    if IsTerminal(s.state) { FullTerminalStays(s, ps, maxLogs); } else { SteppedMirrorsBatch(s, ps, maxLogs); }
  }

  /**
   * Every batch comes to the same as its events one by one exactly for sessions whose progress is not negative
   * and which are not terminal, or are complete: a terminal session below 100 can be carried further by a batch.
   */
  lemma BatchingSoundIff(s: Session, maxLogs: nat)
    ensures (forall ps :: Agree(s, ps, maxLogs)) <==> s.progress >= 0 && (!IsTerminal(s.state) || s.progress >= 100)
  {
    if s.progress >= 0 && (!IsTerminal(s.state) || s.progress >= 100) {
      forall ps ensures Agree(s, ps, maxLogs) { BatchAgrees(s, ps, maxLogs); }
    } else {
      WitnessDisagrees(s, maxLogs);
    }
  }

  // ---------------------------------------------------------------- what every application keeps

  lemma {:induction false} FilterUnique(logs: seq<Log>, keep: Log -> bool)
    requires UniqueIds(logs)
    ensures UniqueIds(Filter(logs, keep))
  {
    if logs != [] {
      FilterUnique(logs[1..], keep);
      FilterMembers(logs[1..], keep);
      var rest := Filter(logs[1..], keep);
      forall k | 0 <= k < |rest| ensures rest[k].id != logs[0].id { assert rest[k] in rest; }
    }
  }

  ghost predicate SessionOk(s: Session, maxLogs: nat) { UniqueIds(s.logs) && |s.logs| <= maxLogs }

  lemma AppendedUnique(logs: seq<Log>, incoming: seq<Log>)
    requires UniqueIds(logs) && UniqueIds(incoming)
    ensures UniqueIds(logs + NewLogs(logs, incoming))
  {
    var keep := (log: Log) => log.id !in Ids(logs);
    FilterUnique(incoming, keep);
    FilterMembers(incoming, keep);
    var added := NewLogs(logs, incoming);
    forall i, j | 0 <= i < |logs| && 0 <= j < |added| ensures logs[i].id != added[j].id {
      assert added[j] in added && logs[i].id in Ids(logs);
    }
  }

  /** Progress never falls, a terminal state never changes, and log ids stay unique within the cap. */
  lemma ApplyKeeps(s: Session, p: Projection, maxLogs: nat)
    requires SessionOk(s, maxLogs) && UniqueIds(p.logs)
    ensures var r := Apply(s, p, maxLogs);
      SessionOk(r, maxLogs) && r.progress >= s.progress && (IsTerminal(s.state) ==> r.state == s.state)
  {
    AppendedUnique(s.logs, p.logs);
  }

  /** And so through any batches applied one after another, whatever events they were merged from. */
  lemma {:induction false} BatchesKeep(s: Session, batches: seq<seq<Projection>>, maxLogs: nat)
    requires SessionOk(s, maxLogs)
    ensures var r := ApplyBatches(s, batches, maxLogs);
      SessionOk(r, maxLogs) && r.progress >= s.progress && (IsTerminal(s.state) ==> r.state == s.state)
  {
    if batches != [] {
      var front := batches[..|batches| - 1];
      BatchesKeep(s, front, maxLogs);
      BatchUnique(batches[|batches| - 1]);
      ApplyKeeps(ApplyBatches(s, front, maxLogs), Batch(batches[|batches| - 1]), maxLogs);
    }
  }

  function ApplyBatches(s: Session, batches: seq<seq<Projection>>, maxLogs: nat): Session {
    if batches == [] then s
    else Apply(ApplyBatches(s, batches[..|batches| - 1], maxLogs), Batch(batches[|batches| - 1]), maxLogs)
  }

  lemma {:induction false} BatchUnique(ps: seq<Projection>)
    ensures UniqueIds(Batch(ps).logs)
  {
    if ps != [] {
      BatchUnique(ps[..|ps| - 1]);
      MergedIsAdded(Batch(ps[..|ps| - 1]).logs, ps[|ps| - 1].logs);
    }
  }
}
