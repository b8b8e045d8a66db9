/**
 * The tool calls of a Task Session, projected from its journal (src-tauri/src/domain/task_session.rs, TaskToolState).
 */
module ToolState {
  import opened Prelude
  import opened Sorting
  import opened Text

  datatype Details = Details(toolName: string, risk: Option<string>, argumentsDigest: Option<string>,
                             display: Option<string>)

  // `completion` is the success flag of a completion event; `callId` is missing from a malformed payload.
  datatype Event = Event(session: nat, sequence: nat, isTool: bool, attempt: Option<nat>, token: nat, createdAt: nat,
                         callId: Option<string>, details: Details, completion: Option<bool>)

  datatype Identity = Identity(attempt: Option<nat>, token: nat, callId: string)

  datatype Status = Running | Succeeded | Failed

  datatype Call = Call(id: Identity, details: Details, status: Status, started: nat, completed: Option<nat>,
                       updatedAt: nat)

  predicate Counts(e: Event, session: nat) { e.session == session && e.isTool && e.callId.Some? }

  function IdentityOf(e: Event): Identity
    requires e.callId.Some?
  {
    Identity(e.attempt, e.token, e.callId.value)
  }

  function Outcome(success: bool): Status { if success then Succeeded else Failed }

  function Opened(e: Event): Call
    requires e.callId.Some?
  {
    Call(IdentityOf(e), e.details, Running, e.sequence, None, e.createdAt)
  }

  function Updated(c: Call, e: Event): Call {
    var c1 := c.(details := e.details, updatedAt := e.createdAt);
    if e.completion.Some? then c1.(status := Outcome(e.completion.value), completed := Some(e.sequence)) else c1
  }

  function Observe(calls: map<Identity, Call>, session: nat, e: Event): map<Identity, Call> {
    if !Counts(e, session) then calls
    else
      var id := IdentityOf(e);
      calls[id := Updated(if id in calls then calls[id] else Opened(e), e)]
  }

  function Observed(session: nat, events: seq<Event>): map<Identity, Call> {
    if events == [] then map[] else Observe(Observed(session, events[..|events| - 1]), session, events[|events| - 1])
  }

  predicate EarlierCall(a: Call, b: Call) { a.started <= b.started }

  /** The order of the table's keys: a missing attempt first, then by attempt, token and runtime call id. */
  predicate IdentityLe(a: Identity, b: Identity) {
    if a.attempt != b.attempt then a.attempt.None? || (b.attempt.Some? && a.attempt.value < b.attempt.value)
    else if a.token != b.token then a.token < b.token
    else LexLe(a.callId, b.callId)
  }

  predicate ById(a: Call, b: Call) { IdentityLe(a.id, b.id) }

  /** By first event; calls that share one in the order of their identities. */
  predicate CallBefore(a: Call, b: Call) { a.started < b.started || (a.started == b.started && ById(a, b)) }

  lemma IdentitiesOrdered()
    ensures TotalPreorder(ById) && forall a, b :: IdentityLe(a, b) && IdentityLe(b, a) ==> a == b
  {
    forall a, b ensures (IdentityLe(a, b) || IdentityLe(b, a)) && (IdentityLe(a, b) && IdentityLe(b, a) ==> a == b) {
      LexTotal(a.callId, b.callId);
    }
    forall a: Call, b: Call, c: Call | ById(a, b) && ById(b, c) ensures ById(a, c) {
      LexTotal(a.id.callId, b.id.callId);
      if a.id.attempt == b.id.attempt == c.id.attempt && a.id.token == b.id.token == c.id.token {
        LexTransitive(a.id.callId, b.id.callId, c.id.callId);
      }
    }
  }

  method FromEvents(session: nat, events: seq<Event>) returns (calls: seq<Call>)
    ensures SortedBy(calls, CallBefore) && Lists(calls, Observed(session, events))
  {
    var table: map<Identity, Call> := map[];
    for i := 0 to |events|
      invariant table == Observed(session, events[..i]) && Keyed(table)
    {
      var event := events[i];
      assert events[..i + 1][..i] == events[..i];
      if event.session == session && event.isTool && event.callId.Some? {
        var id := IdentityOf(event);
        var entry := if id in table then table[id] else Opened(event);
        entry := entry.(details := event.details, updatedAt := event.createdAt);
        if event.completion.Some? {
          entry := entry.(status := Outcome(event.completion.value), completed := Some(event.sequence));
        }
        table := table[id := entry];
      }
    }
    assert events[..|events|] == events;
    var values := ValuesByKey(table);
    calls := SortBy(values, EarlierCall);
    Resorted(values, EarlierCall, table);
    SortIsStable(values, EarlierCall, ById);
  }

  /** The table's values in the order of their keys. */
  method ValuesByKey(table: map<Identity, Call>) returns (values: seq<Call>)
    requires Keyed(table)
    ensures SortedBy(values, ById) && Lists(values, table)
  {
    var listed := Values(table);
    values := SortBy(listed, ById);
    IdentitiesOrdered();
    SortIs(listed, ById);
    Resorted(listed, ById, table);
  }

  lemma Resorted(values: seq<Call>, le: (Call, Call) -> bool, table: map<Identity, Call>)
    requires TotalPreorder(le) && Lists(values, table)
    ensures Lists(SortBy(values, le), table)
  {
    var calls := SortBy(values, le);
    SortIs(values, le);
    MultisetMembers(values, calls);
    DistinctRearranged(values, calls);
    assert forall c :: c in calls <==> c in values;
  }

  /** That order leaves no choice: a table has one such list. */
  lemma OneOrder(table: map<Identity, Call>, a: seq<Call>, b: seq<Call>)
    requires Keyed(table) && SortedBy(a, CallBefore) && Lists(a, table) && SortedBy(b, CallBefore) && Lists(b, table)
    ensures a == b
  {
    forall i, j | 0 <= i < j < |b| ensures CallBefore(b[i], b[j]) && !CallBefore(b[j], b[i]) {
      StrictlyBefore(table, b, i, j);
    }
    forall i | 0 <= i < |a| ensures a[i] in b { assert a[i] in a; }
    forall i | 0 <= i < |b| ensures b[i] in a { assert b[i] in b; }
    OneArrangement(a, b, CallBefore);
  }

  lemma StrictlyBefore(table: map<Identity, Call>, calls: seq<Call>, i: nat, j: nat)
    requires Keyed(table) && SortedBy(calls, CallBefore) && Lists(calls, table) && i < j < |calls|
    ensures CallBefore(calls[i], calls[j]) && !CallBefore(calls[j], calls[i]) && calls[i].id != calls[j].id
  {
    IdentitiesOrdered();
    assert calls[i] in calls && calls[j] in calls && calls[i] != calls[j];
    assert CallBefore(calls[i], calls[j]);
  }

  ghost predicate Keyed(table: map<Identity, Call>) { forall id :: id in table ==> table[id].id == id }

  /** The calls of the table, each once. */
  ghost predicate Lists(calls: seq<Call>, table: map<Identity, Call>) {
    Distinct(calls) && forall c :: c in calls <==> exists id :: id in table && table[id] == c
  }

  method Values(table: map<Identity, Call>) returns (values: seq<Call>)
    requires Keyed(table)
    ensures Lists(values, table)
  {
    values := [];
    var rest := table.Keys;
    while rest != {}
      invariant rest <= table.Keys && Distinct(values)
      invariant forall c :: c in values <==> exists id :: id in table.Keys - rest && table[id] == c
      decreases |rest|
    {
      var id :| id in rest;
      assert table[id] !in values;
      values := values + [table[id]];
      rest := rest - {id};
    }
  }

  // ---------------------------------------------------------------- what the calls say

  /** The events of one call. */
  function EventsOf(session: nat, events: seq<Event>, id: Identity): seq<Event> {
    Filter(events, (e: Event) => Counts(e, session) && IdentityOf(e) == id)
  }

  function LastCompletion(es: seq<Event>): Option<Event> {
    if es == [] then None
    else if es[|es| - 1].completion.Some? then Some(es[|es| - 1])
    else LastCompletion(es[..|es| - 1])
  }

  /**
   * A call, told from its own events alone: begun by the first, described by the last, ended by the last completion.
   */
  function Summary(id: Identity, es: seq<Event>): Call
    requires es != []
  {
    var end := LastCompletion(es);
    LastCompletionIs(es);
    Call(id, es[|es| - 1].details, if end.None? then Running else Outcome(end.value.completion.value),
         es[0].sequence, if end.None? then None else Some(end.value.sequence), es[|es| - 1].createdAt)
  }

  lemma {:induction false} LastCompletionIs(es: seq<Event>)
    ensures LastCompletion(es).Some? ==> LastCompletion(es).value.completion.Some? && LastCompletion(es).value in es
    ensures LastCompletion(es).None? <==> forall e :: e in es ==> e.completion.None?
  {
    if es != [] {
      LastCompletionIs(es[..|es| - 1]);
      assert es == es[..|es| - 1] + [es[|es| - 1]];
    }
  }

  lemma SummarySnoc(id: Identity, es: seq<Event>, e: Event)
    requires e.callId.Some? && IdentityOf(e) == id
    ensures Summary(id, es + [e]) == Updated(if es == [] then Opened(e) else Summary(id, es), e)
  {
    assert (es + [e])[..|es|] == es;
    assert LastCompletion(es + [e]) == if e.completion.Some? then Some(e) else LastCompletion(es);
  }

  lemma EventsOfSnoc(session: nat, events: seq<Event>, e: Event, id: Identity)
    ensures EventsOf(session, events + [e], id)
         == EventsOf(session, events, id) + if Counts(e, session) && IdentityOf(e) == id then [e] else []
  {
    FilterConcat(events, [e], (e: Event) => Counts(e, session) && IdentityOf(e) == id);
  }

  /** There is a call for an identity exactly when it has events, and the call is what those events say. */
  lemma {:induction false} CallsAreSummaries(session: nat, events: seq<Event>, id: Identity)
    ensures id in Observed(session, events) <==> EventsOf(session, events, id) != []
    ensures id in Observed(session, events) ==>
      Observed(session, events)[id] == Summary(id, EventsOf(session, events, id))
    decreases |events|
  {
    if events != [] {
      var front, e := events[..|events| - 1], events[|events| - 1];
      CallsAreSummaries(session, front, id);
      assert events == front + [e];
      EventsOfSnoc(session, front, e, id);
      var es := EventsOf(session, front, id);
      if Counts(e, session) && IdentityOf(e) == id {
        SummarySnoc(id, es, e);
        assert EventsOf(session, events, id) == es + [e];
      } else {
        assert EventsOf(session, events, id) == es;
      }
    }
  }

  /** A call is running exactly when none of its events is a completion; else it is what its last completion says. */
  lemma RunningIff(session: nat, events: seq<Event>, id: Identity)
    requires id in Observed(session, events)
    ensures var c := Observed(session, events)[id];
      var es := EventsOf(session, events, id);
      && c.id == id
      && (c.status.Running? <==> forall e :: e in es ==> e.completion.None?)
      && (c.completed.Some? <==> !c.status.Running?)
      && (c.completed.Some? ==> LastCompletion(es).Some? && LastCompletion(es).value.completion.Some?
                                && c.completed == Some(LastCompletion(es).value.sequence)
                                && c.status == Outcome(LastCompletion(es).value.completion.value))
  {
    CallsAreSummaries(session, events, id);
    LastCompletionIs(EventsOf(session, events, id));
  }

  lemma {:induction false} NothingFiltered<T>(s: seq<T>, keep: T -> bool)
    requires forall i :: 0 <= i < |s| ==> !keep(s[i])
    ensures Filter(s, keep) == []
  {
    if s != [] { NothingFiltered(s[1..], keep); }
  }

  /** Events appended later never alter a call they do not belong to. */
  lemma AppendedLeaveOthers(session: nat, events: seq<Event>, more: seq<Event>, id: Identity)
    requires forall e :: e in more && Counts(e, session) ==> IdentityOf(e) != id
    ensures id in Observed(session, events + more) <==> id in Observed(session, events)
    ensures id in Observed(session, events) ==> Observed(session, events + more)[id] == Observed(session, events)[id]
  {
    var keep := (e: Event) => Counts(e, session) && IdentityOf(e) == id;
    FilterConcat(events, more, keep);
    NothingFiltered(more, keep);
    assert EventsOf(session, events + more, id) == EventsOf(session, events, id);
    CallsAreSummaries(session, events, id);
    CallsAreSummaries(session, events + more, id);
  }

  // ---------------------------------------------------------------- over an ascending journal

  ghost predicate Ascending(events: seq<Event>) {
    forall i, j :: 0 <= i < j < |events| ==> events[i].sequence < events[j].sequence
  }

  /** A call starts at an event of its own. */
  lemma StartedAt(session: nat, events: seq<Event>, id: Identity) returns (i: nat)
    requires id in Observed(session, events)
    ensures i < |events| && Counts(events[i], session) && IdentityOf(events[i]) == id
    ensures Observed(session, events)[id].started == events[i].sequence && Observed(session, events)[id].id == id
  {
    CallsAreSummaries(session, events, id);
    var es := EventsOf(session, events, id);
    FilterMembers(events, (e: Event) => Counts(e, session) && IdentityOf(e) == id);
    assert es[0] in es;
    i :| 0 <= i < |events| && events[i] == es[0];
  }

  /** The projected list has exactly one call for each identity that occurs, ordered by first event. */
  lemma OneCallEach(session: nat, events: seq<Event>, calls: seq<Call>)
    requires Ascending(events) && SortedBy(calls, CallBefore) && Lists(calls, Observed(session, events))
    ensures forall i, j :: 0 <= i < j < |calls| ==> calls[i].started < calls[j].started && calls[i].id != calls[j].id
    ensures forall e :: e in events && Counts(e, session) ==>
      exists i :: 0 <= i < |calls| && calls[i].id == IdentityOf(e)
  {
    forall i, j | 0 <= i < j < |calls| ensures calls[i].started < calls[j].started && calls[i].id != calls[j].id {
      TwoCalls(session, events, calls, i, j);
    }
    forall e | e in events && Counts(e, session) ensures exists i :: 0 <= i < |calls| && calls[i].id == IdentityOf(e) {
      CallFor(session, events, calls, e);
    }
  }

  lemma TwoCalls(session: nat, events: seq<Event>, calls: seq<Call>, i: nat, j: nat)
    requires Ascending(events) && SortedBy(calls, CallBefore)
    requires Lists(calls, Observed(session, events)) && i < j < |calls|
    ensures calls[i].started < calls[j].started && calls[i].id != calls[j].id
  {
    var table := Observed(session, events);
    assert calls[i] in calls && calls[j] in calls;
    var a :| a in table && table[a] == calls[i];
    var b :| b in table && table[b] == calls[j];
    var m := StartedAt(session, events, a);
    var n := StartedAt(session, events, b);
    assert CallBefore(calls[i], calls[j]);
  }

  lemma CallFor(session: nat, events: seq<Event>, calls: seq<Call>, e: Event)
    requires Lists(calls, Observed(session, events)) && e in events && Counts(e, session)
    ensures exists i :: 0 <= i < |calls| && calls[i].id == IdentityOf(e)
  {
    var id := IdentityOf(e);
    CallsAreSummaries(session, events, id);
    FilterMembers(events, (e: Event) => Counts(e, session) && IdentityOf(e) == id);
    assert e in EventsOf(session, events, id);
    assert Observed(session, events)[id] in calls;
  }
}
