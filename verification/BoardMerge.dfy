/**
 * Merging a synced projection into the board as it stands (src/lib/boardWorkflow.ts, mergeSyncedWorkspace).
 * What is retained is decided by the projection's first board; every board of every project is then rewritten.
 * A missing value and a null one are the same `None`.
 */
module BoardMerge {
  import opened Prelude

  datatype Intent = InProgress | Done | Another(number: nat)

  datatype Card = Card(id: nat, isLocal: bool, snapshot: Option<nat>, missingAt: Option<int>, completedAt: Option<int>,
                       content: nat)

  datatype Column = Column(intent: Intent, cards: seq<Card>)

  datatype Board = Board(columns: seq<Column>)

  datatype Project = Project(boards: seq<Board>)

  datatype Entry = Entry(card: Card, intent: Intent)

  /** The legacy seed card, how long a missing card is kept, the cards deleted here, and the time. */
  datatype Settings = Settings(seed: nat, retain: int, deleted: set<nat>, now: int)

  // ---------------------------------------------------------------- cards of a board

  function EntriesOf(column: Column): seq<Entry> {
    seq(|column.cards|, i requires 0 <= i < |column.cards| => Entry(column.cards[i], column.intent))
  }

  /** All cards, column by column. */
  function Flat(columns: seq<Column>): seq<Entry> {
    if columns == [] then [] else Flat(columns[..|columns| - 1]) + EntriesOf(columns[|columns| - 1])
  }

  lemma {:induction false} FlatIs(columns: seq<Column>)
    ensures forall e: Entry :: e in Flat(columns) <==>
      exists k :: 0 <= k < |columns| && columns[k].intent == e.intent && e.card in columns[k].cards
  {
    if columns != [] {
      var front, last := columns[..|columns| - 1], columns[|columns| - 1];
      FlatIs(front);
      EntriesOfIs(last);
      forall e: Entry
        ensures e in Flat(columns) <==>
          exists k :: 0 <= k < |columns| && columns[k].intent == e.intent && e.card in columns[k].cards
      {
        if e in Flat(front) {
          var k :| 0 <= k < |front| && front[k].intent == e.intent && e.card in front[k].cards;
          assert columns[k] == front[k];
        }
        if k :| 0 <= k < |columns| && columns[k].intent == e.intent && e.card in columns[k].cards {
          if k < |front| { assert columns[k] == front[k]; }
        }
      }
    }
  }

  lemma EntriesOfIs(column: Column)
    ensures forall e: Entry :: e in EntriesOf(column) <==> e.intent == column.intent && e.card in column.cards
  {
    forall e: Entry | e.intent == column.intent && e.card in column.cards ensures e in EntriesOf(column) {
      var i :| 0 <= i < |column.cards| && column.cards[i] == e.card;
      assert EntriesOf(column)[i] == e;
    }
  }

  // ---------------------------------------------------------------- what the loops collect

  /** An insertion-ordered table: a known id keeps its place and takes the new value. */
  function SetEntry(entries: seq<Entry>, e: Entry): seq<Entry> {
    var p := PositionOf(entries, e.card.id);
    if p.Some? && p.value < |entries| then entries[p.value := e] else entries + [e]
  }

  function PositionOf(entries: seq<Entry>, id: nat): Option<nat> {
    if entries == [] then None
    else if entries[|entries| - 1].card.id == id then Some(|entries| - 1)
    else PositionOf(entries[..|entries| - 1], id)
  }

  lemma {:induction false} PositionIs(entries: seq<Entry>, id: nat)
    ensures PositionOf(entries, id).None? <==> forall i :: 0 <= i < |entries| ==> entries[i].card.id != id
    ensures PositionOf(entries, id).Some? ==>
      PositionOf(entries, id).value < |entries| && entries[PositionOf(entries, id).value].card.id == id
  {
    if entries != [] { PositionIs(entries[..|entries| - 1], id); }
  }

  function Collected(all: seq<Entry>, deleted: set<nat>): seq<Entry> {
    if all == [] then []
    else
      var front, last := Collected(all[..|all| - 1], deleted), all[|all| - 1];
      if last.card.id in deleted then front else SetEntry(front, last)
  }

  function CardTable(all: seq<Entry>, deleted: set<nat>): map<nat, Card> {
    if all == [] then map[]
    else
      var front, last := CardTable(all[..|all| - 1], deleted), all[|all| - 1];
      if last.card.id in deleted then front else front[last.card.id := last.card]
  }

  method CollectCurrent(columns: seq<Column>, deleted: set<nat>) returns (entries: seq<Entry>)
    ensures entries == Collected(Flat(columns), deleted)
  {
    entries := [];
    for k := 0 to |columns|
      invariant entries == Collected(Flat(columns[..k]), deleted)
    {
      var column := columns[k];
      assert Flat(columns[..k]) + EntriesOf(column)[..0] == Flat(columns[..k]);
      for i := 0 to |column.cards|
        invariant entries == Collected(Flat(columns[..k]) + EntriesOf(column)[..i], deleted)
      {
        var e := Entry(column.cards[i], column.intent);
        OneMore(Flat(columns[..k]), EntriesOf(column), i);
        if e.card.id !in deleted {
          entries := SetEntry(entries, e);
        }
      }
      assert EntriesOf(column)[..|column.cards|] == EntriesOf(column);
      assert columns[..k + 1][..k] == columns[..k];
    }
    assert columns[..|columns|] == columns;
  }

  lemma OneMore(before: seq<Entry>, more: seq<Entry>, i: nat)
    requires i < |more|
    ensures var all := before + more[..i + 1]; all[..|all| - 1] == before + more[..i] && all[|all| - 1] == more[i]
  {
  }

  method CollectIncoming(columns: seq<Column>, deleted: set<nat>) returns (table: map<nat, Card>)
    ensures table == CardTable(Flat(columns), deleted)
  {
    table := map[];
    for k := 0 to |columns|
      invariant table == CardTable(Flat(columns[..k]), deleted)
    {
      var column := columns[k];
      assert Flat(columns[..k]) + EntriesOf(column)[..0] == Flat(columns[..k]);
      for i := 0 to |column.cards|
        invariant table == CardTable(Flat(columns[..k]) + EntriesOf(column)[..i], deleted)
      {
        OneMore(Flat(columns[..k]), EntriesOf(column), i);
        if column.cards[i].id !in deleted {
          table := table[column.cards[i].id := column.cards[i]];
        }
      }
      assert EntriesOf(column)[..|column.cards|] == EntriesOf(column);
      assert columns[..k + 1][..k] == columns[..k];
    }
    assert columns[..|columns|] == columns;
  }

  // ---------------------------------------------------------------- retaining and refreshing

  function OrElse<T>(a: Option<T>, b: Option<T>): Option<T> { if a.Some? then a else b }

  /**
   * What is retained of a card on the board: local cards, and cards in work or done until they have been missing too
   * long.
   */
  function Retain(e: Entry, incoming: map<nat, Card>, s: Settings): Option<Card> {
    if e.card.id == s.seed || e.card.id in s.deleted then None
    else if e.card.isLocal then Some(e.card.(missingAt := None))
    else if e.intent.Another? then None
    else
      var missingAt := if e.card.id in incoming then None else OrElse(e.card.missingAt, Some(s.now));
      if missingAt.Some? && s.now - missingAt.value > s.retain then None
      else
        var snapshot := if e.card.id in incoming then OrElse(incoming[e.card.id].snapshot, e.card.snapshot)
                        else e.card.snapshot;
        Some(e.card.(snapshot := snapshot, missingAt := missingAt))
  }

  function RetainedFor(entries: seq<Entry>, intent: Intent, incoming: map<nat, Card>, s: Settings): seq<Card> {
    if entries == [] then []
    else
      var last := entries[|entries| - 1];
      var r := Retain(last, incoming, s);
      RetainedFor(entries[..|entries| - 1], intent, incoming, s)
      + if last.intent == intent && r.Some? then [r.value] else []
  }

  function RetainedIds(entries: seq<Entry>, incoming: map<nat, Card>, s: Settings): set<nat> {
    set i | 0 <= i < |entries| && Retain(entries[i], incoming, s).Some? :: entries[i].card.id
  }

  function Refresh(c: Card, entries: seq<Entry>): Card {
    var p := PositionOf(entries, c.id);
    var known := if p.Some? && p.value < |entries| then entries[p.value].card.completedAt else None;
    c.(completedAt := OrElse(known, c.completedAt), missingAt := None)
  }

  function Refreshed(cards: seq<Card>, entries: seq<Entry>, retained: set<nat>, deleted: set<nat>): seq<Card> {
    if cards == [] then []
    else
      var last := cards[|cards| - 1];
      Refreshed(cards[..|cards| - 1], entries, retained, deleted)
      + if last.id in retained || last.id in deleted then [] else [Refresh(last, entries)]
  }

  function MergedColumn(column: Column, entries: seq<Entry>, table: map<nat, Card>, s: Settings): Column {
    Column(column.intent,
           Refreshed(column.cards, entries, RetainedIds(entries, table, s), s.deleted) +
               RetainedFor(entries, column.intent, table, s))
  }

  function MergedColumns(columns: seq<Column>, entries: seq<Entry>, table: map<nat, Card>, s: Settings): seq<Column> {
    seq(|columns|, k requires 0 <= k < |columns| => MergedColumn(columns[k], entries, table, s))
  }

  /** What becomes of one board of a projection whose first board is `incoming`. */
  function MergedOn(board: seq<Column>, incoming: seq<Column>, current: seq<Column>, s: Settings): seq<Column> {
    MergedColumns(board, Collected(Flat(current), s.deleted), CardTable(Flat(incoming), s.deleted), s)
  }

  function Merged(incoming: seq<Column>, current: seq<Column>, s: Settings): seq<Column> {
    MergedOn(incoming, incoming, current, s)
  }

  function FirstColumns(projects: seq<Project>): seq<Column> {
    if projects != [] && projects[0].boards != [] then projects[0].boards[0].columns else []
  }

  function CurrentColumns(current: Option<seq<Column>>): seq<Column> { if current.Some? then current.value else [] }

  function ListFor(byIntent: map<Intent, seq<Card>>, intent: Intent): seq<Card> {
    if intent in byIntent then byIntent[intent] else []
  }

  ghost predicate Gathers(byIntent: map<Intent, seq<Card>>, entries: seq<Entry>, table: map<nat, Card>, s: Settings) {
    forall intent :: ListFor(byIntent, intent) == RetainedFor(entries, intent, table, s)
  }

  /** The retained cards, gathered by intent, and their ids. */
  method RetainCards(entries: seq<Entry>, table: map<nat, Card>, s: Settings)
    returns (byIntent: map<Intent, seq<Card>>, ids: set<nat>)
    ensures ids == RetainedIds(entries, table, s) && Gathers(byIntent, entries, table, s)
  {
    byIntent, ids := map[], {};
    for i := 0 to |entries|
      invariant ids == RetainedIds(entries[..i], table, s) && Gathers(byIntent, entries[..i], table, s)
    {
      var e := entries[i];
      var r := Retain(e, table, s);
      RetainedIdsSnoc(entries[..i], e, table, s);
      assert entries[..i] + [e] == entries[..i + 1];
      if r.Some? {
        byIntent := byIntent[e.intent := ListFor(byIntent, e.intent) + [r.value]];
        ids := ids + {e.card.id};
      }
    }
    assert entries[..|entries|] == entries;
  }

  lemma RetainedIdsSnoc(entries: seq<Entry>, e: Entry, table: map<nat, Card>, s: Settings)
    ensures RetainedIds(entries + [e], table, s)
         == RetainedIds(entries, table, s) + if Retain(e, table, s).Some? then {e.card.id} else {}
  {
    var more := entries + [e];
    forall id | id in RetainedIds(entries, table, s) ensures id in RetainedIds(more, table, s) {
      var i :| 0 <= i < |entries| && Retain(entries[i], table, s).Some? && entries[i].card.id == id;
      assert more[i] == entries[i];
    }
    if Retain(e, table, s).Some? { assert more[|entries|] == e; }
    forall id | id in RetainedIds(more, table, s)
      ensures id in RetainedIds(entries, table, s) || (Retain(e, table, s).Some? && id == e.card.id)
    {
      var i :| 0 <= i < |more| && Retain(more[i], table, s).Some? && more[i].card.id == id;
      if i < |entries| { assert more[i] == entries[i]; }
    }
  }

  method MergeSyncedWorkspace(projects: seq<Project>, current: Option<seq<Column>>, s: Settings)
    returns (merged: seq<Project>)
    ensures |merged| == |projects|
    ensures forall p :: 0 <= p < |projects| ==>
      BoardsMerged(projects[p], merged[p], FirstColumns(projects), CurrentColumns(current), s)
  {
    var entries := CollectCurrent(CurrentColumns(current), s.deleted);
    var table := CollectIncoming(FirstColumns(projects), s.deleted);
    var byIntent, ids := RetainCards(entries, table, s);
    merged := [];
    for p := 0 to |projects|
      invariant |merged| == p
      invariant forall q :: 0 <= q < p ==>
        BoardsMerged(projects[q], merged[q], FirstColumns(projects), CurrentColumns(current), s)
    {
      var boards := BuildBoards(projects[p].boards, entries, table, s, byIntent, ids);
      merged := merged + [Project(boards)];
    }
  }

  ghost predicate BoardsMerged(before: Project, after: Project, incoming: seq<Column>, current: seq<Column>,
                               s: Settings) {
    && |after.boards| == |before.boards|
    && forall b :: 0 <= b < |before.boards| ==>
        after.boards[b].columns == MergedOn(before.boards[b].columns, incoming, current, s)
  }

  method BuildBoards(boards: seq<Board>, entries: seq<Entry>, ghost table: map<nat, Card>, s: Settings,
                     byIntent: map<Intent, seq<Card>>, ids: set<nat>)
    returns (built: seq<Board>)
    requires ids == RetainedIds(entries, table, s) && Gathers(byIntent, entries, table, s)
    ensures |built| == |boards|
    ensures forall b :: 0 <= b < |boards| ==> built[b].columns == MergedColumns(boards[b].columns, entries, table, s)
  {
    built := [];
    for b := 0 to |boards|
      invariant |built| == b && forall c :: 0 <= c < b ==>
        built[c].columns == MergedColumns(boards[c].columns, entries, table, s)
    {
      var columns := BuildColumns(boards[b].columns, entries, table, s, byIntent, ids);
      built := built + [Board(columns)];
    }
  }

  method BuildColumns(incoming: seq<Column>, entries: seq<Entry>, ghost table: map<nat, Card>, s: Settings,
                      byIntent: map<Intent, seq<Card>>, ids: set<nat>)
    returns (merged: seq<Column>)
    requires ids == RetainedIds(entries, table, s) && Gathers(byIntent, entries, table, s)
    ensures merged == MergedColumns(incoming, entries, table, s)
  {
    merged := [];
    for k := 0 to |incoming|
      invariant |merged| == k && forall l :: 0 <= l < k ==> merged[l] == MergedColumn(incoming[l], entries, table, s)
    {
      var column := incoming[k];
      merged := merged +
          [Column(column.intent, Refreshed(column.cards, entries, ids, s.deleted) + ListFor(byIntent, column.intent))];
    }
  }
}
