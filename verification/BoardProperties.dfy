/**
 * What a merge leaves on the board, said card by card, and when merging the same projection again changes nothing.
 */
module BoardProperties {
  import opened Prelude
  import opened BoardMerge

  /** No two cards share an id. */
  ghost predicate UniqueCards(all: seq<Entry>) {
    forall i, j :: 0 <= i < j < |all| ==> all[i].card.id != all[j].card.id
  }

  ghost predicate DistinctIntents(columns: seq<Column>) {
    forall i, j :: 0 <= i < j < |columns| ==> columns[i].intent != columns[j].intent
  }

  ghost predicate HasIntent(columns: seq<Column>, intent: Intent) {
    exists k :: 0 <= k < |columns| && columns[k].intent == intent
  }

  /** The card is on the board, in the column of this intent. */
  predicate Shows(columns: seq<Column>, card: Card, intent: Intent) { Entry(card, intent) in Flat(columns) }

  lemma OneEntry(all: seq<Entry>, a: Entry, b: Entry)
    requires UniqueCards(all) && a in all && b in all && a.card.id == b.card.id
    ensures a == b
  {
    var i :| 0 <= i < |all| && all[i] == a;
    var j :| 0 <= j < |all| && all[j] == b;
    assert !(i < j) && !(j < i);
  }

  // ---------------------------------------------------------------- what the tables hold

  ghost predicate CollectedIs(all: seq<Entry>, deleted: set<nat>, entries: seq<Entry>) {
    && UniqueCards(entries)
    && forall e :: e in entries <==> e in all && e.card.id !in deleted
  }

  lemma CollectedOneMore(front: seq<Entry>, last: Entry, deleted: set<nat>, entries: seq<Entry>)
    requires CollectedIs(front, deleted, entries) && forall e :: e in front ==> e.card.id != last.card.id
    ensures CollectedIs(front + [last], deleted, if last.card.id in deleted then entries else SetEntry(entries, last))
  {
    PositionIs(entries, last.card.id);
    forall i | 0 <= i < |entries| ensures entries[i].card.id != last.card.id { assert entries[i] in front; }
  }

  lemma {:induction false} CollectedAre(all: seq<Entry>, deleted: set<nat>)
    requires UniqueCards(all)
    ensures CollectedIs(all, deleted, Collected(all, deleted))
  {
    if all != [] {
      var front, last := all[..|all| - 1], all[|all| - 1];
      CollectedAre(front, deleted);
      assert all == front + [last];
      CollectedOneMore(front, last, deleted, Collected(front, deleted));
    }
  }

  ghost predicate TableIs(all: seq<Entry>, deleted: set<nat>, table: map<nat, Card>) {
    && (forall e :: e in all && e.card.id !in deleted ==> InTable(table, e.card))
    && (forall id :: id in table ==> id !in deleted && HasId(all, id))
  }

  predicate InTable(table: map<nat, Card>, card: Card) { card.id in table && table[card.id] == card }

  ghost predicate HasId(all: seq<Entry>, id: nat) { exists e :: e in all && e.card.id == id }

  lemma {:induction false} TableAre(all: seq<Entry>, deleted: set<nat>)
    requires UniqueCards(all)
    ensures TableIs(all, deleted, CardTable(all, deleted))
  {
    if all != [] {
      var front, last := all[..|all| - 1], all[|all| - 1];
      TableAre(front, deleted);
      assert all == front + [last];
      var table := CardTable(front, deleted);
      assert CardTable(all, deleted) == if last.card.id in deleted then table else table[last.card.id := last.card];
    }
  }

  lemma {:induction false} RetainedForIs(entries: seq<Entry>, intent: Intent, table: map<nat, Card>, s: Settings)
    ensures forall x :: x in RetainedFor(entries, intent, table, s) <==>
      exists i :: 0 <= i < |entries| && entries[i].intent == intent && Retain(entries[i], table, s) == Some(x)
  {
    if entries != [] {
      var front, last := entries[..|entries| - 1], entries[|entries| - 1];
      RetainedForIs(front, intent, table, s);
      forall x ensures x in RetainedFor(entries, intent, table, s) <==>
        exists i :: 0 <= i < |entries| && entries[i].intent == intent && Retain(entries[i], table, s) == Some(x)
      {
        if i :| 0 <= i < |front| && front[i].intent == intent && Retain(front[i], table, s) == Some(x) {
          assert entries[i] == front[i];
        }
        if i :| 0 <= i < |entries| && entries[i].intent == intent && Retain(entries[i], table, s) == Some(x) {
          if i < |front| { assert front[i] == entries[i]; }
        }
      }
    }
  }

  lemma {:induction false} RefreshedIs(cards: seq<Card>, entries: seq<Entry>, retained: set<nat>, deleted: set<nat>)
    ensures forall x :: x in Refreshed(cards, entries, retained, deleted) <==>
      exists c :: c in cards && c.id !in retained && c.id !in deleted && x == Refresh(c, entries)
  {
    if cards != [] {
      var front, last := cards[..|cards| - 1], cards[|cards| - 1];
      RefreshedIs(front, entries, retained, deleted);
      assert cards == front + [last];
    }
  }

  lemma RetainKeepsId(e: Entry, table: map<nat, Card>, s: Settings)
    ensures Retain(e, table, s).Some? ==> Retain(e, table, s).value.id == e.card.id && e.card.id !in s.deleted
  {
  }

  // ---------------------------------------------------------------- where each card ends up

  /** A card of the board as it was is retained as `x`. */
  ghost predicate RetainedAs(incoming: seq<Column>, current: seq<Column>, s: Settings, e: Entry, x: Card) {
    && e in Flat(current) && e.card.id !in s.deleted
    && Retain(e, CardTable(Flat(incoming), s.deleted), s) == Some(x)
  }

  ghost predicate IsRetained(incoming: seq<Column>, current: seq<Column>, s: Settings, id: nat) {
    exists e, x :: RetainedAs(incoming, current, s, e, x) && e.card.id == id
  }

  /** An incoming card that is not retained is shown as `x`. */
  ghost predicate RefreshedAs(incoming: seq<Column>, current: seq<Column>, s: Settings, e: Entry, x: Card) {
    RefreshedOn(incoming, incoming, current, s, e, x)
  }

  /** The same for a card of any board of the projection. */
  ghost predicate RefreshedOn(board: seq<Column>, incoming: seq<Column>, current: seq<Column>, s: Settings, e: Entry,
                              x: Card) {
    && e in Flat(board) && e.card.id !in s.deleted && !IsRetained(incoming, current, s, e.card.id)
    && x == Refresh(e.card, Collected(Flat(current), s.deleted))
  }

  lemma RetainedIdsAre(incoming: seq<Column>, current: seq<Column>, s: Settings, id: nat)
    requires UniqueCards(Flat(current))
    ensures id in RetainedIds(Collected(Flat(current), s.deleted), CardTable(Flat(incoming), s.deleted), s)
        <==> IsRetained(incoming, current, s, id)
  {
    var entries, table := Collected(Flat(current), s.deleted), CardTable(Flat(incoming), s.deleted);
    CollectedAre(Flat(current), s.deleted);
    if id in RetainedIds(entries, table, s) {
      var i :| 0 <= i < |entries| && Retain(entries[i], table, s).Some? && entries[i].card.id == id;
      assert entries[i] in entries;
      assert RetainedAs(incoming, current, s, entries[i], Retain(entries[i], table, s).value);
    }
    if IsRetained(incoming, current, s, id) {
      var e, x :| RetainedAs(incoming, current, s, e, x) && e.card.id == id;
      assert e in entries;
      var i :| 0 <= i < |entries| && entries[i] == e;
      assert entries[i].card.id == id;
    }
  }

  /**
   * What any board of the workspace shows after a merge: every retained card whose old intent it has a column of, and
   * those of its own cards that are not retained.
   */
  lemma BoardShows(board: seq<Column>, incoming: seq<Column>, current: seq<Column>, s: Settings, x: Card,
                   intent: Intent)
    requires UniqueCards(Flat(current))
    ensures Shows(MergedOn(board, incoming, current, s), x, intent) <==>
      || (HasIntent(board, intent) && exists e :: RetainedAs(incoming, current, s, e, x) && e.intent == intent)
      || (exists e :: RefreshedOn(board, incoming, current, s, e, x) && e.intent == intent)
  {
    var merged := MergedOn(board, incoming, current, s);
    FlatIs(merged);
    if Shows(merged, x, intent) {
      var k :| 0 <= k < |merged| && merged[k].intent == intent && x in merged[k].cards;
      ColumnShows(board, incoming, current, s, k, x);
      assert HasIntent(board, intent);
    }
    if exists e :: RetainedAs(incoming, current, s, e, x) && e.intent == intent {
      if HasIntent(board, intent) {
        var k :| 0 <= k < |board| && board[k].intent == intent;
        ColumnShows(board, incoming, current, s, k, x);
        assert merged[k].intent == intent && x in merged[k].cards;
      }
    }
    if e :| RefreshedOn(board, incoming, current, s, e, x) && e.intent == intent {
      FlatIs(board);
      var k :| 0 <= k < |board| && board[k].intent == e.intent && e.card in board[k].cards;
      ColumnShows(board, incoming, current, s, k, x);
      assert merged[k].intent == intent && x in merged[k].cards;
    }
  }

  /**
   * For the first board: what it retains in the column of its old intent, and what it refreshes in its incoming one.
   */
  lemma MergedShows(incoming: seq<Column>, current: seq<Column>, s: Settings, x: Card, intent: Intent)
    requires UniqueCards(Flat(current))
    ensures Shows(Merged(incoming, current, s), x, intent) <==>
      || (HasIntent(incoming, intent) && exists e :: RetainedAs(incoming, current, s, e, x) && e.intent == intent)
      || (exists e :: RefreshedAs(incoming, current, s, e, x) && e.intent == intent)
  {
    BoardShows(incoming, incoming, current, s, x, intent);
    assert forall e :: RefreshedAs(incoming, current, s, e, x) == RefreshedOn(incoming, incoming, current, s, e, x);
  }

  /** The same for one column. */
  lemma ColumnShows(board: seq<Column>, incoming: seq<Column>, current: seq<Column>, s: Settings, k: nat, x: Card)
    requires UniqueCards(Flat(current)) && k < |board|
    ensures x in MergedOn(board, incoming, current, s)[k].cards <==>
      || (exists e :: RetainedAs(incoming, current, s, e, x) && e.intent == board[k].intent)
      || (exists e ::
            RefreshedOn(board, incoming, current, s, e, x) && e.intent == board[k].intent && e.card in board[k].cards)
  {
    RetainedPart(incoming, current, s, board[k].intent, x);
    RefreshedPart(board, incoming, current, s, k, x);
  }

  lemma RetainedPart(incoming: seq<Column>, current: seq<Column>, s: Settings, intent: Intent, x: Card)
    requires UniqueCards(Flat(current))
    ensures x in RetainedFor(Collected(Flat(current), s.deleted), intent, CardTable(Flat(incoming), s.deleted), s)
        <==> exists e :: RetainedAs(incoming, current, s, e, x) && e.intent == intent
  {
    var entries, table := Collected(Flat(current), s.deleted), CardTable(Flat(incoming), s.deleted);
    CollectedAre(Flat(current), s.deleted);
    RetainedForIs(entries, intent, table, s);
    if x in RetainedFor(entries, intent, table, s) {
      var i :| 0 <= i < |entries| && entries[i].intent == intent && Retain(entries[i], table, s) == Some(x);
      assert entries[i] in entries;
      assert RetainedAs(incoming, current, s, entries[i], x);
    }
    if e :| RetainedAs(incoming, current, s, e, x) && e.intent == intent {
      assert e in entries;
      var i :| 0 <= i < |entries| && entries[i] == e;
    }
  }

  lemma RefreshedPart(board: seq<Column>, incoming: seq<Column>, current: seq<Column>, s: Settings, k: nat, x: Card)
    requires UniqueCards(Flat(current)) && k < |board|
    ensures var entries, table := Collected(Flat(current), s.deleted), CardTable(Flat(incoming), s.deleted);
      x in Refreshed(board[k].cards, entries, RetainedIds(entries, table, s), s.deleted)
      <==> exists e ::
             RefreshedOn(board, incoming, current, s, e, x) && e.intent == board[k].intent && e.card in board[k].cards
  {
    var entries, table := Collected(Flat(current), s.deleted), CardTable(Flat(incoming), s.deleted);
    var retained := RetainedIds(entries, table, s);
    RefreshedIs(board[k].cards, entries, retained, s.deleted);
    FlatIs(board);
    if x in Refreshed(board[k].cards, entries, retained, s.deleted) {
      var c :| c in board[k].cards && c.id !in retained && c.id !in s.deleted && x == Refresh(c, entries);
      RetainedIdsAre(incoming, current, s, c.id);
      assert RefreshedOn(board, incoming, current, s, Entry(c, board[k].intent), x);
    }
    if e :| RefreshedOn(board, incoming, current, s, e, x) && e.intent == board[k].intent && e.card in board[k].cards {
      RetainedIdsAre(incoming, current, s, e.card.id);
    }
  }

  // ---------------------------------------------------------------- each card at most once

  ghost predicate UniqueIds(cards: seq<Card>) {
    forall i, j :: 0 <= i < j < |cards| ==> cards[i].id != cards[j].id
  }

  ghost predicate Apart(a: seq<Card>, b: seq<Card>) { forall x, y :: x in a && y in b ==> x.id != y.id }

  /** Each column holds its cards once, and no two columns share one. */
  ghost predicate UniqueBoard(columns: seq<Column>) {
    && (forall k :: 0 <= k < |columns| ==> UniqueIds(columns[k].cards))
    && (forall k, l :: 0 <= k < l < |columns| ==> Apart(columns[k].cards, columns[l].cards))
  }

  lemma {:induction false} BoardUnique(columns: seq<Column>)
    requires UniqueBoard(columns)
    ensures UniqueCards(Flat(columns))
  {
    if columns != [] {
      var front, last := columns[..|columns| - 1], columns[|columns| - 1];
      BoardUnique(front);
      FlatIs(front);
      var a, b := Flat(front), EntriesOf(last);
      forall i, j | 0 <= i < |a| && 0 <= j < |b| ensures a[i].card.id != b[j].card.id {
        assert a[i] in a;
        var k :| 0 <= k < |front| && front[k].intent == a[i].intent && a[i].card in front[k].cards;
        assert Apart(columns[k].cards, last.cards) && b[j].card in last.cards;
      }
    }
  }

  lemma UniqueParts(a: seq<Entry>, b: seq<Entry>)
    requires UniqueCards(a + b)
    ensures UniqueCards(a) && UniqueCards(b)
    ensures forall x, y :: x in a && y in b ==> x.card.id != y.card.id
  {
    var all := a + b;
    forall i, j | 0 <= i < j < |a| ensures a[i].card.id != a[j].card.id { assert all[i] == a[i] && all[j] == a[j]; }
    forall i, j | 0 <= i < j < |b|
      ensures b[i].card.id != b[j].card.id
    {
      assert all[|a| + i] == b[i] && all[|a| + j] == b[j];
    }
    forall x, y | x in a && y in b ensures x.card.id != y.card.id {
      var i :| 0 <= i < |a| && a[i] == x;
      var j :| 0 <= j < |b| && b[j] == y;
      assert all[i] == x && all[|a| + j] == y;
    }
  }

  lemma UniqueColumn(column: Column)
    requires UniqueCards(EntriesOf(column))
    ensures UniqueIds(column.cards)
  {
    var b := EntriesOf(column);
    forall i, j | 0 <= i < j < |column.cards| ensures column.cards[i].id != column.cards[j].id {
      assert b[i].card.id != b[j].card.id;
    }
  }

  lemma {:induction false} UniqueOnBoard(columns: seq<Column>)
    requires UniqueCards(Flat(columns))
    ensures UniqueBoard(columns)
  {
    if columns != [] {
      var front, last := columns[..|columns| - 1], columns[|columns| - 1];
      UniqueParts(Flat(front), EntriesOf(last));
      UniqueOnBoard(front);
      UniqueColumn(last);
      FlatIs(front);
      EntriesOfIs(last);
      forall k | 0 <= k < |front| ensures Apart(front[k].cards, last.cards) {
        forall x, y | x in front[k].cards && y in last.cards ensures x.id != y.id {
          assert Entry(x, front[k].intent) in Flat(front) && Entry(y, last.intent) in EntriesOf(last);
        }
      }
      forall k, l | 0 <= k < l < |columns| ensures Apart(columns[k].cards, columns[l].cards) {
        assert columns[k] == front[k];
        if l < |front| { assert columns[l] == front[l]; }
      }
    }
  }

  lemma {:induction false} RefreshedUnique(cards: seq<Card>, entries: seq<Entry>, retained: set<nat>, deleted: set<nat>)
    requires UniqueIds(cards)
    ensures UniqueIds(Refreshed(cards, entries, retained, deleted))
  {
    if cards != [] {
      var front, last := cards[..|cards| - 1], cards[|cards| - 1];
      RefreshedUnique(front, entries, retained, deleted);
      RefreshedIs(front, entries, retained, deleted);
      var r := Refreshed(front, entries, retained, deleted);
      forall i | 0 <= i < |r| ensures r[i].id != last.id { assert r[i] in r; }
    }
  }

  lemma {:induction false} RetainedUnique(entries: seq<Entry>, intent: Intent, table: map<nat, Card>, s: Settings)
    requires UniqueCards(entries)
    ensures UniqueIds(RetainedFor(entries, intent, table, s))
  {
    if entries != [] {
      var front, last := entries[..|entries| - 1], entries[|entries| - 1];
      RetainedUnique(front, intent, table, s);
      RetainedForIs(front, intent, table, s);
      var r := RetainedFor(front, intent, table, s);
      forall i | 0 <= i < |r| ensures r[i].id != last.card.id {
        assert r[i] in r;
        var k :| 0 <= k < |front| && front[k].intent == intent && Retain(front[k], table, s) == Some(r[i]);
        assert entries[k] == front[k];
      }
    }
  }

  /** A card retained and a card refreshed are never the same. */
  lemma RetainedNotRefreshed(incoming: seq<Column>, current: seq<Column>, s: Settings, d: Entry, x: Card, e: Entry,
                             y: Card)
    requires RetainedAs(incoming, current, s, d, x) && RefreshedAs(incoming, current, s, e, y)
    ensures x.id != y.id
  {
    RetainKeepsId(d, CardTable(Flat(incoming), s.deleted), s);
  }

  lemma ColumnUnique(incoming: seq<Column>, current: seq<Column>, s: Settings, k: nat)
    requires UniqueCards(Flat(incoming)) && UniqueCards(Flat(current)) && k < |incoming|
    ensures UniqueIds(Merged(incoming, current, s)[k].cards)
  {
    var entries, table := Collected(Flat(current), s.deleted), CardTable(Flat(incoming), s.deleted);
    UniqueOnBoard(incoming);
    CollectedAre(Flat(current), s.deleted);
    var a := Refreshed(incoming[k].cards, entries, RetainedIds(entries, table, s), s.deleted);
    var b := RetainedFor(entries, incoming[k].intent, table, s);
    RefreshedUnique(incoming[k].cards, entries, RetainedIds(entries, table, s), s.deleted);
    RetainedUnique(entries, incoming[k].intent, table, s);
    forall i, j | 0 <= i < |a| && 0 <= j < |b| ensures a[i].id != b[j].id {
      assert a[i] in a && b[j] in b;
      RefreshedPart(incoming, incoming, current, s, k, a[i]);
      RetainedPart(incoming, current, s, incoming[k].intent, b[j]);
      var e :| RefreshedAs(incoming, current, s, e, a[i]) && e.intent == incoming[k].intent &&
          e.card in incoming[k].cards;
      var d :| RetainedAs(incoming, current, s, d, b[j]) && d.intent == incoming[k].intent;
      RetainedNotRefreshed(incoming, current, s, d, b[j], e, a[i]);
    }
  }

  lemma ColumnsApart(incoming: seq<Column>, current: seq<Column>, s: Settings, k: nat, l: nat, x: Card, y: Card)
    requires UniqueCards(Flat(incoming)) && UniqueCards(Flat(current))
    requires DistinctIntents(incoming) && k < l < |incoming|
    requires x in Merged(incoming, current, s)[k].cards && y in Merged(incoming, current, s)[l].cards
    ensures x.id != y.id
  {
    UniqueOnBoard(incoming);
    ColumnShows(incoming, incoming, current, s, k, x);
    ColumnShows(incoming, incoming, current, s, l, y);
    if d :| RetainedAs(incoming, current, s, d, x) && d.intent == incoming[k].intent {
      RetainKeepsId(d, CardTable(Flat(incoming), s.deleted), s);
      if e :| RetainedAs(incoming, current, s, e, y) && e.intent == incoming[l].intent {
        RetainKeepsId(e, CardTable(Flat(incoming), s.deleted), s);
        if d.card.id == e.card.id { OneEntry(Flat(current), d, e); }
      } else {
        var e :| RefreshedAs(incoming, current, s, e, y) && e.intent == incoming[l].intent &&
            e.card in incoming[l].cards;
        RetainedNotRefreshed(incoming, current, s, d, x, e, y);
      }
    } else {
      var d :| RefreshedAs(incoming, current, s, d, x) && d.intent == incoming[k].intent && d.card in incoming[k].cards;
      if e :| RetainedAs(incoming, current, s, e, y) && e.intent == incoming[l].intent {
        RetainedNotRefreshed(incoming, current, s, e, y, d, x);
      } else {
        var e :| RefreshedAs(incoming, current, s, e, y) && e.intent == incoming[l].intent &&
            e.card in incoming[l].cards;
        assert Apart(incoming[k].cards, incoming[l].cards);
      }
    }
  }

  /** Distinct cards in, distinct cards out: the merged board shows each card at most once. */
  lemma MergedUnique(incoming: seq<Column>, current: seq<Column>, s: Settings)
    requires UniqueCards(Flat(incoming)) && UniqueCards(Flat(current)) && DistinctIntents(incoming)
    ensures UniqueCards(Flat(Merged(incoming, current, s)))
  {
    var merged := Merged(incoming, current, s);
    forall k | 0 <= k < |merged| ensures UniqueIds(merged[k].cards) { ColumnUnique(incoming, current, s, k); }
    forall k, l | 0 <= k < l < |merged| ensures Apart(merged[k].cards, merged[l].cards) {
      forall x, y | x in merged[k].cards && y in merged[l].cards ensures x.id != y.id {
        ColumnsApart(incoming, current, s, k, l, x, y);
      }
    }
    BoardUnique(merged);
  }

  // ---------------------------------------------------------------- which cards, and where

  /** A card on the board that a merge must leave in its column. */
  ghost predicate MustStay(incoming: seq<Column>, e: Entry, s: Settings) {
    && e.card.id != s.seed && e.card.id !in s.deleted
    && (e.card.isLocal
        || (!e.intent.Another?
            && (HasId(Flat(incoming), e.card.id) || s.now - OrElse(e.card.missingAt, Some(s.now)).value <= s.retain)))
  }

  lemma MustStayIff(incoming: seq<Column>, current: seq<Column>, s: Settings, e: Entry)
    requires UniqueCards(Flat(incoming)) && e in Flat(current)
    ensures MustStay(incoming, e, s) <==> exists x :: RetainedAs(incoming, current, s, e, x)
  {
    var table := CardTable(Flat(incoming), s.deleted);
    TableAre(Flat(incoming), s.deleted);
    if HasId(Flat(incoming), e.card.id) && e.card.id !in s.deleted {
      var c :| c in Flat(incoming) && c.card.id == e.card.id;
      assert InTable(table, c.card);
    }
    var r := Retain(e, table, s);
    if r.Some? && e.card.id !in s.deleted { assert RetainedAs(incoming, current, s, e, r.value); }
  }

  /**
   * The merged board has no deleted card; every card that must stay, if its column still exists, in that column;
   * every other incoming card in its incoming column; and no card besides.
   */
  lemma Placement(incoming: seq<Column>, current: seq<Column>, s: Settings)
    requires UniqueCards(Flat(incoming)) && UniqueCards(Flat(current))
    ensures var merged := Merged(incoming, current, s);
      && (forall x, i :: Shows(merged, x, i) ==> x.id !in s.deleted)
      && (forall e :: e in Flat(current) && MustStay(incoming, e, s) && HasIntent(incoming, e.intent) ==>
          ShowsId(merged, e.card.id, e.intent))
      && (forall e ::
            e in Flat(incoming) && e.card.id !in s.deleted && !StaysSomewhere(incoming, current, s, e.card.id) ==>
            ShowsId(merged, e.card.id, e.intent))
      && (forall x, i :: Shows(merged, x, i) ==> CameFrom(incoming, current, s, x.id, i))
  {
    var merged := Merged(incoming, current, s);
    forall x, i | Shows(merged, x, i) ensures x.id !in s.deleted && CameFrom(incoming, current, s, x.id, i) {
      ShownCameFrom(incoming, current, s, x, i);
    }
    forall e | e in Flat(current) && MustStay(incoming, e, s) && HasIntent(incoming, e.intent)
      ensures ShowsId(merged, e.card.id, e.intent)
    {
      MustStayIff(incoming, current, s, e);
      var x :| RetainedAs(incoming, current, s, e, x);
      MergedShows(incoming, current, s, x, e.intent);
    }
    forall e | e in Flat(incoming) && e.card.id !in s.deleted && !StaysSomewhere(incoming, current, s, e.card.id)
      ensures ShowsId(merged, e.card.id, e.intent)
    {
      RetainedIffStays(incoming, current, s, e.card.id);
      var x := Refresh(e.card, Collected(Flat(current), s.deleted));
      assert RefreshedAs(incoming, current, s, e, x);
      MergedShows(incoming, current, s, x, e.intent);
      assert Shows(merged, x, e.intent) && x.id == e.card.id;
    }
  }

  ghost predicate ShowsId(columns: seq<Column>, id: nat, intent: Intent) {
    exists x :: Shows(columns, x, intent) && x.id == id
  }

  ghost predicate StaysSomewhere(incoming: seq<Column>, current: seq<Column>, s: Settings, id: nat) {
    exists e :: e in Flat(current) && e.card.id == id && MustStay(incoming, e, s)
  }

  ghost predicate CameFrom(incoming: seq<Column>, current: seq<Column>, s: Settings, id: nat, intent: Intent) {
    || (exists e :: e in Flat(current) && e.card.id == id && e.intent == intent && MustStay(incoming, e, s))
    || (!StaysSomewhere(incoming, current, s, id)
        && exists e :: e in Flat(incoming) && e.card.id == id && e.intent == intent)
  }

  lemma RetainedIffStays(incoming: seq<Column>, current: seq<Column>, s: Settings, id: nat)
    requires UniqueCards(Flat(incoming))
    ensures IsRetained(incoming, current, s, id) <==> StaysSomewhere(incoming, current, s, id)
  {
    if IsRetained(incoming, current, s, id) {
      var e, x :| RetainedAs(incoming, current, s, e, x) && e.card.id == id;
      MustStayIff(incoming, current, s, e);
    }
    if e :| e in Flat(current) && e.card.id == id && MustStay(incoming, e, s) {
      MustStayIff(incoming, current, s, e);
      var x :| RetainedAs(incoming, current, s, e, x);
      assert IsRetained(incoming, current, s, id);
    }
  }

  lemma ShownCameFrom(incoming: seq<Column>, current: seq<Column>, s: Settings, x: Card, i: Intent)
    requires UniqueCards(Flat(incoming)) && UniqueCards(Flat(current)) && Shows(Merged(incoming, current, s), x, i)
    ensures x.id !in s.deleted && CameFrom(incoming, current, s, x.id, i)
  {
    MergedShows(incoming, current, s, x, i);
    if e :| RetainedAs(incoming, current, s, e, x) && e.intent == i {
      MustStayIff(incoming, current, s, e);
    } else {
      var e :| RefreshedAs(incoming, current, s, e, x) && e.intent == i;
      RetainedIffStays(incoming, current, s, x.id);
    }
  }

  /** What is shown of a card that stays: its own, but for a newer snapshot and the time it has been missing since. */
  ghost predicate StaysAs(incoming: seq<Column>, e: Entry, x: Card, s: Settings) {
    && x.id == e.card.id && x.content == e.card.content && x.completedAt == e.card.completedAt
    && x.isLocal == e.card.isLocal
    && (x.missingAt.None? <==> e.card.isLocal || HasId(Flat(incoming), e.card.id))
    && (x.missingAt.Some? ==> x.missingAt == if e.card.missingAt.Some? then e.card.missingAt else Some(s.now))
    && (e.card.isLocal || !HasId(Flat(incoming), e.card.id) ==> x.snapshot == e.card.snapshot)
    && (forall c :: c in Flat(incoming) && c.card.id == e.card.id && !e.card.isLocal ==>
          x.snapshot == if c.card.snapshot.Some? then c.card.snapshot else e.card.snapshot)
  }

  /** What is shown of an incoming card: its own, but for the completion time the board already has. */
  ghost predicate ComesAs(current: seq<Column>, c: Entry, x: Card) {
    && x.id == c.card.id && x.content == c.card.content && x.isLocal == c.card.isLocal && x.snapshot == c.card.snapshot
    && x.missingAt.None?
    && (forall e :: e in Flat(current) && e.card.id == c.card.id ==>
          x.completedAt == if e.card.completedAt.Some? then e.card.completedAt else c.card.completedAt)
    && (!HasId(Flat(current), c.card.id) ==> x.completedAt == c.card.completedAt)
  }

  /** Every shown card is what its origin makes of it. */
  lemma Contents(incoming: seq<Column>, current: seq<Column>, s: Settings, x: Card, i: Intent)
    requires UniqueCards(Flat(incoming)) && UniqueCards(Flat(current)) && Shows(Merged(incoming, current, s), x, i)
    ensures (exists e :: e in Flat(current) && e.intent == i && MustStay(incoming, e, s) && StaysAs(incoming, e, x, s))
         || (exists c :: c in Flat(incoming) && c.intent == i && ComesAs(current, c, x))
  {
    MergedShows(incoming, current, s, x, i);
    if e :| RetainedAs(incoming, current, s, e, x) && e.intent == i {
      MustStayIff(incoming, current, s, e);
      RetainedContent(incoming, current, s, e, x);
    } else {
      var c :| RefreshedAs(incoming, current, s, c, x) && c.intent == i;
      RefreshedContent(incoming, current, s, c, x);
    }
  }

  lemma RetainedContent(incoming: seq<Column>, current: seq<Column>, s: Settings, e: Entry, x: Card)
    requires UniqueCards(Flat(incoming)) && RetainedAs(incoming, current, s, e, x)
    ensures StaysAs(incoming, e, x, s)
  {
    var table := CardTable(Flat(incoming), s.deleted);
    TableAre(Flat(incoming), s.deleted);
    forall c | c in Flat(incoming) && c.card.id == e.card.id ensures InTable(table, c.card) {}
    if HasId(Flat(incoming), e.card.id) {
      var c :| c in Flat(incoming) && c.card.id == e.card.id;
      assert InTable(table, c.card);
    }
  }

  lemma RefreshedContent(incoming: seq<Column>, current: seq<Column>, s: Settings, c: Entry, x: Card)
    requires UniqueCards(Flat(current)) && RefreshedAs(incoming, current, s, c, x)
    ensures ComesAs(current, c, x)
  {
    var entries := Collected(Flat(current), s.deleted);
    CollectedAre(Flat(current), s.deleted);
    PositionIs(entries, c.card.id);
    var p := PositionOf(entries, c.card.id);
    if p.Some? { assert entries[p.value] in entries; }
    forall e | e in Flat(current) && e.card.id == c.card.id
      ensures p.Some? && entries[p.value] == e
    {
      assert e in entries;
      OneEntry(entries, e, entries[p.value]);
    }
  }

  // ---------------------------------------------------------------- merging again

  ghost predicate SameCards(a: seq<Column>, b: seq<Column>) { forall x, i :: Shows(a, x, i) <==> Shows(b, x, i) }

  /** A card that must stay, whose column is gone, and which the projection shows in some other column. */
  ghost predicate Stranded(incoming: seq<Column>, current: seq<Column>, s: Settings, e: Entry) {
    && e in Flat(current) && MustStay(incoming, e, s) && !HasIntent(incoming, e.intent)
    && HasId(Flat(incoming), e.card.id)
  }

  /** A retained card is retained again, unchanged. */
  lemma RetainTwice(e: Entry, table: map<nat, Card>, s: Settings)
    requires Retain(e, table, s).Some?
    ensures Retain(Entry(Retain(e, table, s).value, e.intent), table, s) == Retain(e, table, s)
  {
  }

  /** The second merge retains a shown card, if at all, as what it is, and refreshes it to what it is. */
  lemma ShownAgain(incoming: seq<Column>, current: seq<Column>, s: Settings, x: Card, i: Intent)
    requires UniqueCards(Flat(incoming)) && UniqueCards(Flat(current)) && DistinctIntents(incoming)
    requires Shows(Merged(incoming, current, s), x, i)
    ensures var r := Retain(Entry(x, i), CardTable(Flat(incoming), s.deleted), s); r.Some? ==> r == Some(x)
    ensures forall e :: e in Flat(incoming) && e.card.id == x.id && !IsRetained(incoming, current, s, x.id) ==>
      e.intent == i && Refresh(e.card, Collected(Flat(Merged(incoming, current, s)), s.deleted)) == x
  {
    var merged, table := Merged(incoming, current, s), CardTable(Flat(incoming), s.deleted);
    MergedShows(incoming, current, s, x, i);
    if d :| RetainedAs(incoming, current, s, d, x) && d.intent == i {
      RetainTwice(d, table, s);
      assert IsRetained(incoming, current, s, x.id);
    } else {
      var d :| RefreshedAs(incoming, current, s, d, x) && d.intent == i;
      TableAre(Flat(incoming), s.deleted);
      assert InTable(table, d.card);
      forall e | e in Flat(incoming) && e.card.id == x.id
        ensures e.intent == i && Refresh(e.card, Collected(Flat(merged), s.deleted)) == x
      {
        OneEntry(Flat(incoming), d, e);
        RefreshAgain(incoming, current, s, d, x);
      }
    }
  }

  lemma RefreshAgain(incoming: seq<Column>, current: seq<Column>, s: Settings, d: Entry, x: Card)
    requires UniqueCards(Flat(incoming)) && UniqueCards(Flat(current)) && DistinctIntents(incoming)
    requires RefreshedAs(incoming, current, s, d, x) && Shows(Merged(incoming, current, s), x, d.intent)
    ensures Refresh(d.card, Collected(Flat(Merged(incoming, current, s)), s.deleted)) == x
  {
    var merged := Merged(incoming, current, s);
    var entries := Collected(Flat(merged), s.deleted);
    MergedUnique(incoming, current, s);
    CollectedAre(Flat(merged), s.deleted);
    PositionIs(entries, x.id);
    assert Entry(x, d.intent) in entries;
    var p := PositionOf(entries, x.id).value;
    assert entries[p] in entries;
    OneEntry(Flat(merged), entries[p], Entry(x, d.intent));
  }

  /** A shown card that would not be retained came from the projection. */
  lemma ShownRefreshed(incoming: seq<Column>, current: seq<Column>, s: Settings, x: Card, i: Intent)
    requires UniqueCards(Flat(current))
    requires Shows(Merged(incoming, current, s), x, i)
    requires Retain(Entry(x, i), CardTable(Flat(incoming), s.deleted), s).None?
    ensures exists d :: RefreshedAs(incoming, current, s, d, x) && d.intent == i
  {
    MergedShows(incoming, current, s, x, i);
    forall d | RetainedAs(incoming, current, s, d, x) ensures d.intent != i {
      RetainTwice(d, CardTable(Flat(incoming), s.deleted), s);
    }
  }

  /** What the first merge shows, the second shows too. */
  lemma StillShown(incoming: seq<Column>, current: seq<Column>, s: Settings, x: Card, i: Intent)
    requires UniqueCards(Flat(incoming)) && UniqueCards(Flat(current)) && DistinctIntents(incoming)
    requires Shows(Merged(incoming, current, s), x, i)
    ensures Shows(Merged(incoming, Merged(incoming, current, s), s), x, i)
  {
    var merged, table := Merged(incoming, current, s), CardTable(Flat(incoming), s.deleted);
    MergedUnique(incoming, current, s);
    ShownAgain(incoming, current, s, x, i);
    ShownCameFrom(incoming, current, s, x, i);
    MergedShows(incoming, merged, s, x, i);
    ShownHasIntent(incoming, current, s, x, i);
    if Retain(Entry(x, i), table, s).Some? {
      assert RetainedAs(incoming, merged, s, Entry(x, i), x);
    } else {
      NotRetainedAgain(incoming, current, s, x, i);
      ShownRefreshed(incoming, current, s, x, i);
      var d :| RefreshedAs(incoming, current, s, d, x) && d.intent == i;
      assert RefreshedAs(incoming, merged, s, d, x);
    }
  }

  lemma ShownHasIntent(incoming: seq<Column>, current: seq<Column>, s: Settings, x: Card, i: Intent)
    requires Shows(Merged(incoming, current, s), x, i)
    ensures HasIntent(incoming, i)
  {
    var merged := Merged(incoming, current, s);
    FlatIs(merged);
    var k :| 0 <= k < |merged| && merged[k].intent == Entry(x, i).intent && Entry(x, i).card in merged[k].cards;
    assert incoming[k].intent == i;
  }

  /** A shown card that the second merge would not retain is not retained under any other entry. */
  lemma NotRetainedAgain(incoming: seq<Column>, current: seq<Column>, s: Settings, x: Card, i: Intent)
    requires UniqueCards(Flat(incoming)) && UniqueCards(Flat(current)) && DistinctIntents(incoming)
    requires Shows(Merged(incoming, current, s), x, i)
    requires Retain(Entry(x, i), CardTable(Flat(incoming), s.deleted), s).None?
    ensures !IsRetained(incoming, Merged(incoming, current, s), s, x.id)
  {
    var merged := Merged(incoming, current, s);
    MergedUnique(incoming, current, s);
    forall e, y | RetainedAs(incoming, merged, s, e, y) ensures e.card.id != x.id {
      if e.card.id == x.id { OneEntry(Flat(merged), e, Entry(x, i)); }
    }
  }

  /** With nobody stranded, the second merge shows nothing new. */
  lemma NothingNew(incoming: seq<Column>, current: seq<Column>, s: Settings, y: Card, i: Intent)
    requires UniqueCards(Flat(incoming)) && UniqueCards(Flat(current)) && DistinctIntents(incoming)
    requires forall e :: !Stranded(incoming, current, s, e)
    requires Shows(Merged(incoming, Merged(incoming, current, s), s), y, i)
    ensures Shows(Merged(incoming, current, s), y, i)
  {
    var merged, table := Merged(incoming, current, s), CardTable(Flat(incoming), s.deleted);
    MergedUnique(incoming, current, s);
    MergedShows(incoming, merged, s, y, i);
    if e :| RetainedAs(incoming, merged, s, e, y) && e.intent == i {
      ShownAgain(incoming, current, s, e.card, i);
    } else {
      var e :| RefreshedAs(incoming, merged, s, e, y) && e.intent == i;
      NotRetainedBefore(incoming, current, s, e);
      var x := Refresh(e.card, Collected(Flat(current), s.deleted));
      assert RefreshedAs(incoming, current, s, e, x);
      MergedShows(incoming, current, s, x, i);
      ShownAgain(incoming, current, s, x, i);
    }
  }

  /** What is retained in a column that still exists is retained again. */
  lemma RetainedAgain(incoming: seq<Column>, current: seq<Column>, s: Settings, d: Entry, x: Card)
    requires UniqueCards(Flat(incoming)) && UniqueCards(Flat(current))
    requires RetainedAs(incoming, current, s, d, x) && HasIntent(incoming, d.intent)
    ensures IsRetained(incoming, Merged(incoming, current, s), s, d.card.id)
  {
    var table := CardTable(Flat(incoming), s.deleted);
    MergedShows(incoming, current, s, x, d.intent);
    RetainTwice(d, table, s);
    assert RetainedAs(incoming, Merged(incoming, current, s), s, Entry(x, d.intent), x);
  }

  /** An incoming card not retained the second time was not retained the first time. */
  lemma NotRetainedBefore(incoming: seq<Column>, current: seq<Column>, s: Settings, e: Entry)
    requires UniqueCards(Flat(incoming)) && UniqueCards(Flat(current)) && DistinctIntents(incoming)
    requires forall d :: !Stranded(incoming, current, s, d)
    requires e in Flat(incoming) && !IsRetained(incoming, Merged(incoming, current, s), s, e.card.id)
    ensures !IsRetained(incoming, current, s, e.card.id)
  {
    forall d, x | RetainedAs(incoming, current, s, d, x) ensures d.card.id != e.card.id {
      if HasIntent(incoming, d.intent) {
        RetainedAgain(incoming, current, s, d, x);
      } else {
        MustStayIff(incoming, current, s, d);
        assert !Stranded(incoming, current, s, d);
      }
    }
  }

  /** A stranded card is missing after the first merge and back after the second. */
  lemma StrandedComesBack(incoming: seq<Column>, current: seq<Column>, s: Settings, e: Entry)
    requires UniqueCards(Flat(incoming)) && UniqueCards(Flat(current))
    requires DistinctIntents(incoming) && Stranded(incoming, current, s, e)
    ensures !SameCards(Merged(incoming, current, s), Merged(incoming, Merged(incoming, current, s), s))
  {
    var merged := Merged(incoming, current, s);
    var id := e.card.id;
    MergedUnique(incoming, current, s);
    Missing(incoming, current, s, e);
    var c :| c in Flat(incoming) && c.card.id == id;
    forall d, y | RetainedAs(incoming, merged, s, d, y) ensures d.card.id != id {
      assert Shows(merged, d.card, d.intent);
    }
    var x := Refresh(c.card, Collected(Flat(merged), s.deleted));
    assert RefreshedAs(incoming, merged, s, c, x);
    MergedShows(incoming, merged, s, x, c.intent);
    assert x.id == id;
  }

  lemma Missing(incoming: seq<Column>, current: seq<Column>, s: Settings, e: Entry)
    requires UniqueCards(Flat(incoming)) && UniqueCards(Flat(current)) && Stranded(incoming, current, s, e)
    ensures forall x, i :: Shows(Merged(incoming, current, s), x, i) ==> x.id != e.card.id
  {
    forall x, i | Shows(Merged(incoming, current, s), x, i) ensures x.id != e.card.id {
      ShownHasIntent(incoming, current, s, x, i);
      ShownCameFrom(incoming, current, s, x, i);
      if x.id == e.card.id {
        assert StaysSomewhere(incoming, current, s, x.id);
        var d :| d in Flat(current) && d.card.id == x.id && d.intent == i && MustStay(incoming, d, s);
        OneEntry(Flat(current), d, e);
      }
    }
  }

  /**
   * Merging the same projection again at the same time changes nothing, up to order within a column, exactly if no
   * card that must stay has lost its column while the projection shows it elsewhere.
   */
  lemma MergeTwiceIff(incoming: seq<Column>, current: seq<Column>, s: Settings)
    requires UniqueCards(Flat(incoming)) && UniqueCards(Flat(current)) && DistinctIntents(incoming)
    ensures SameCards(Merged(incoming, current, s), Merged(incoming, Merged(incoming, current, s), s))
        <==> forall e :: !Stranded(incoming, current, s, e)
  {
    if e :| Stranded(incoming, current, s, e) {
      StrandedComesBack(incoming, current, s, e);
    } else {
      var once := Merged(incoming, current, s);
      var twice := Merged(incoming, once, s);
      forall x, i ensures Shows(once, x, i) <==> Shows(twice, x, i) {
        if Shows(once, x, i) { StillShown(incoming, current, s, x, i); }
        if Shows(twice, x, i) { NothingNew(incoming, current, s, x, i); }
      }
    }
  }

  // ---------------------------------------------------------------- a board that changes on the second merge

  const INCOMING: seq<Column> := [Column(Another(1), [Card(1, false, None, None, None, 0)])]
  const CURRENT: seq<Column> := [Column(InProgress, [Card(1, false, None, None, None, 0)])]
  const PLAIN: Settings := Settings(0, 0, {}, 0)

  lemma FlatOne(column: Column)
    requires |column.cards| == 1
    ensures Flat([column]) == [Entry(column.cards[0], column.intent)]
  {
    assert [column][..0] == [];
    assert Flat([column]) == [] + EntriesOf(column);
  }

  lemma CardOneStranded()
    ensures Flat(INCOMING) == [Entry(INCOMING[0].cards[0], Another(1))]
    ensures Flat(CURRENT) == [Entry(CURRENT[0].cards[0], InProgress)]
    ensures Stranded(INCOMING, CURRENT, PLAIN, Entry(CURRENT[0].cards[0], InProgress))
  {
    FlatOne(INCOMING[0]);
    FlatOne(CURRENT[0]);
    assert Flat(CURRENT)[0] in Flat(CURRENT) && Flat(INCOMING)[0] in Flat(INCOMING);
    assert HasId(Flat(INCOMING), 1);
  }

  /** No card is shown that neither side has. */
  lemma NoOtherCard(incoming: seq<Column>, current: seq<Column>, s: Settings, id: nat, x: Card, i: Intent)
    requires UniqueCards(Flat(incoming)) && UniqueCards(Flat(current)) && Shows(Merged(incoming, current, s), x, i)
    requires forall e :: e in Flat(incoming) || e in Flat(current) ==> e.card.id == id
    ensures x.id == id
  {
    ShownCameFrom(incoming, current, s, x, i);
  }

  /** A stranded card that is the only one there is leaves an empty board. */
  lemma NothingLeft(incoming: seq<Column>, current: seq<Column>, s: Settings, e: Entry)
    requires UniqueCards(Flat(incoming)) && UniqueCards(Flat(current)) && Stranded(incoming, current, s, e)
    requires forall d :: d in Flat(incoming) || d in Flat(current) ==> d.card.id == e.card.id
    ensures forall x, i :: !Shows(Merged(incoming, current, s), x, i)
  {
    forall x, i | Shows(Merged(incoming, current, s), x, i) ensures x.id == e.card.id {
      NoOtherCard(incoming, current, s, e.card.id, x, i);
    }
    Missing(incoming, current, s, e);
  }

  /**
   * Card 1 is in work on the board, and the projection has it in another column and no column for work in progress:
   * the first merge shows nothing, and the second shows it again.
   */
  lemma StrandedCard()
    ensures Stranded(INCOMING, CURRENT, PLAIN, Entry(CURRENT[0].cards[0], InProgress))
    ensures forall x, i :: !Shows(Merged(INCOMING, CURRENT, PLAIN), x, i)
    ensures !SameCards(Merged(INCOMING, CURRENT, PLAIN), Merged(INCOMING, Merged(INCOMING, CURRENT, PLAIN), PLAIN))
  {
    var e := Entry(CURRENT[0].cards[0], InProgress);
    CardOneStranded();
    NothingLeft(INCOMING, CURRENT, PLAIN, e);
    StrandedComesBack(INCOMING, CURRENT, PLAIN, e);
  }
}
