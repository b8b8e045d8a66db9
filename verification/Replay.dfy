/**
 * Replay of a Task Session's event journal from pages (src/lib/taskSessionReplay.ts), and the loop that hands
 * the events of a running session to its observer (src/lib/agentTaskSessions.ts, waitForAgentTaskSession).
 */
module Replay {
  import opened Prelude
  import Store = SchedulerStore

  const PAGE_LIMIT: nat := 500

  // What replay reads of an event; `state` is the lifecycle state its payload carries, if it carries one.
  datatype Event = Event(session: nat, sequence: nat, state: Option<Store.SessionState>, progress: Option<nat>,
                         attempt: Option<nat>, token: nat, isCandidate: bool)

  datatype Replay = Replay(session: nat, cursor: nat, state: Option<Store.SessionState>, progress: Option<nat>,
                           events: seq<Event>)

  function Create(session: nat): Replay { Replay(session, 0, None, None, []) }

  /** JavaScript's `slice(-Math.max(0, n))`: for `n` of zero or less that is `slice(0)`, the whole array. */
  function KeepLast<T>(s: seq<T>, n: int): (r: seq<T>)
    ensures n <= 0 ==> r == s
    ensures n > 0 ==> |r| == Min(n, |s|) && r == s[|s| - |r|..]
  {
    if n <= 0 || n >= |s| then s else s[|s| - n..]
  }

  function Newer<T>(newer: Option<T>, older: Option<T>): Option<T> { if newer.Some? then newer else older }

  function ApplyEvent(r: Replay, e: Event, maxEvents: int): Replay {
    Replay(r.session, e.sequence, Newer(e.state, r.state), Newer(e.progress, r.progress),
           KeepLast(r.events + [e], maxEvents))
  }

  datatype PageResult = Applied(replay: Replay) | GapDetected(replay: Replay) | WrongSession

  function ApplyPage(r: Replay, page: seq<Event>, maxEvents: int): PageResult
    decreases |page|
  {
    if page == [] then Applied(r)
    else if page[0].session != r.session then WrongSession
    else if page[0].sequence <= r.cursor then ApplyPage(r, page[1..], maxEvents)
    else if page[0].sequence != r.cursor + 1 then GapDetected(r)
    else ApplyPage(ApplyEvent(r, page[0], maxEvents), page[1..], maxEvents)
  }

  method ApplyTaskSessionEventPage(replay: Replay, page: seq<Event>, maxEvents: int) returns (result: PageResult)
    ensures result == ApplyPage(replay, page, maxEvents)
  {
    var next := replay;
    for i := 0 to |page|
      invariant next.session == replay.session
      invariant ApplyPage(replay, page, maxEvents) == ApplyPage(next, page[i..], maxEvents)
    {
      var event := page[i];
      assert page[i..][0] == event && page[i..][1..] == page[i + 1..];
      if event.session != replay.session {
        return WrongSession;
      }
      if event.sequence > next.cursor {
        if event.sequence != next.cursor + 1 {
          return GapDetected(next);
        }
        next := ApplyEvent(next, event, maxEvents);
      }
    }
    return Applied(next);
  }

  // ---------------------------------------------------------------- one journal

  /** The journal of session `s`: sequence numbers 1, 2, 3, and so on. */
  ghost predicate IsJournal(j: seq<Event>, s: nat) {
    forall i :: 0 <= i < |j| ==> j[i].session == s && j[i].sequence == i + 1
  }

  /** A page shows nothing but events of the journal: in any order, any of them missing, any of them again. */
  ghost predicate DrawnFrom(page: seq<Event>, j: seq<Event>) {
    forall i :: 0 <= i < |page| ==> page[i] in j
  }

  function LastState(j: seq<Event>): Option<Store.SessionState> {
    if j == [] then None else Newer(j[|j| - 1].state, LastState(j[..|j| - 1]))
  }

  function LastProgress(j: seq<Event>): Option<nat> {
    if j == [] then None else Newer(j[|j| - 1].progress, LastProgress(j[..|j| - 1]))
  }

  /** What replay should know at cursor `c`: the last state and progress reported so far, and the last events. */
  function At(j: seq<Event>, s: nat, c: nat, maxEvents: int): Replay
    requires c <= |j|
  {
    Replay(s, c, LastState(j[..c]), LastProgress(j[..c]), KeepLast(j[..c], maxEvents))
  }

  lemma NextEvent(j: seq<Event>, s: nat, c: nat, maxEvents: int)
    requires IsJournal(j, s) && c < |j|
    ensures ApplyEvent(At(j, s, c, maxEvents), j[c], maxEvents) == At(j, s, c + 1, maxEvents)
  {
    assert j[..c + 1] == j[..c] + [j[c]] && j[..c + 1][..c] == j[..c];
  }

  predicate Before(c: nat, d: nat, r: PageResult, j: seq<Event>, s: nat, maxEvents: int)
    requires d <= |j|
  {
    && c <= d
    && match r
       case Applied(replay) => replay == At(j, s, d, maxEvents)
       case GapDetected(replay) => replay == At(j, s, d, maxEvents)
       case WrongSession => false
  }

  /** One page takes the replay from one cursor to another, never back, and always to what belongs to that cursor. */
  lemma {:induction false} PageAdvances(j: seq<Event>, s: nat, c: nat, page: seq<Event>, maxEvents: int)
    returns (d: nat)
    requires IsJournal(j, s) && c <= |j| && DrawnFrom(page, j)
    ensures d <= |j| && Before(c, d, ApplyPage(At(j, s, c, maxEvents), page, maxEvents), j, s, maxEvents)
    ensures ApplyPage(At(j, s, c, maxEvents), page, maxEvents).Applied? <==> NoHole(c, page)
    decreases |page|
  {
    d := c;
    if page != [] {
      assert page[0] in j;
      assert DrawnFrom(page[1..], j);
      if page[0].sequence <= c {
        d := PageAdvances(j, s, c, page[1..], maxEvents);
      } else if page[0].sequence == c + 1 {
        assert page[0] == j[c];
        NextEvent(j, s, c, maxEvents);
        d := PageAdvances(j, s, c + 1, page[1..], maxEvents);
      }
    }
  }

  /** No event of the page runs ahead of everything before it. */
  predicate NoHole(c: nat, page: seq<Event>)
    decreases |page|
  {
    page == [] || (page[0].sequence <= c + 1 && NoHole(Max(c, page[0].sequence), page[1..]))
  }

  function AfterPages(r: Replay, pages: seq<seq<Event>>, maxEvents: int): Option<Replay>
    decreases |pages|
  {
    if pages == [] then Some(r)
    else
      match ApplyPage(r, pages[0], maxEvents)
      case WrongSession => None
      case Applied(next) => AfterPages(next, pages[1..], maxEvents)
      case GapDetected(next) => AfterPages(next, pages[1..], maxEvents)
  }

  /**
   * Whatever pages of one journal arrive, in whatever order and however often: the replay is the one that
   * belongs to its cursor, and the cursor never went back.
   */
  lemma {:induction false} ReplayIsFunctionOfCursor(j: seq<Event>, s: nat, c: nat, pages: seq<seq<Event>>,
                                                    maxEvents: int) returns (d: nat)
    requires IsJournal(j, s) && c <= |j| && forall i :: 0 <= i < |pages| ==> DrawnFrom(pages[i], j)
    ensures c <= d <= |j| && AfterPages(At(j, s, c, maxEvents), pages, maxEvents) == Some(At(j, s, d, maxEvents))
    decreases |pages|
  {
    d := c;
    if pages != [] {
      assert DrawnFrom(pages[0], j);
      var e := PageAdvances(j, s, c, pages[0], maxEvents);
      d := ReplayIsFunctionOfCursor(j, s, e, pages[1..], maxEvents);
    }
  }

  /** A fresh replay is the one that belongs to cursor 0. */
  lemma CreateIs(j: seq<Event>, s: nat, maxEvents: int)
    ensures Create(s) == At(j, s, 0, maxEvents)
  {
    assert j[..0] == [];
  }

  /** Where a page is cut in two makes no difference. */
  lemma {:induction false} PageBoundary(r: Replay, a: seq<Event>, b: seq<Event>, maxEvents: int)
    ensures ApplyPage(r, a + b, maxEvents)
         == if ApplyPage(r, a, maxEvents).Applied? then ApplyPage(ApplyPage(r, a, maxEvents).replay, b, maxEvents)
            else ApplyPage(r, a, maxEvents)
    decreases |a|
  {
    if a == [] {
      assert a + b == b;
    } else {
      assert (a + b)[0] == a[0] && (a + b)[1..] == a[1..] + b;
      if a[0].session == r.session {
        if a[0].sequence <= r.cursor {
          PageBoundary(r, a[1..], b, maxEvents);
        } else if a[0].sequence == r.cursor + 1 {
          PageBoundary(ApplyEvent(r, a[0], maxEvents), a[1..], b, maxEvents);
        }
      }
    }
  }

  /** Applying a page a second time changes nothing. */
  lemma {:induction false} PageTwice(r: Replay, page: seq<Event>, maxEvents: int)
    requires ApplyPage(r, page, maxEvents).Applied?
    ensures var next := ApplyPage(r, page, maxEvents).replay;
      && r.cursor <= next.cursor && next.session == r.session
      && (forall i :: 0 <= i < |page| ==> page[i].sequence <= next.cursor && page[i].session == r.session)
      && ApplyPage(next, page, maxEvents) == Applied(next)
    decreases |page|
  {
    if page != [] {
      var middle := if page[0].sequence <= r.cursor then r else ApplyEvent(r, page[0], maxEvents);
      PageTwice(middle, page[1..], maxEvents);
      var next := ApplyPage(r, page, maxEvents).replay;
      AllOld(next, page, maxEvents);
    }
  }

  lemma {:induction false} AllOld(r: Replay, page: seq<Event>, maxEvents: int)
    requires forall i :: 0 <= i < |page| ==> page[i].sequence <= r.cursor && page[i].session == r.session
    ensures ApplyPage(r, page, maxEvents) == Applied(r)
    decreases |page|
  {
    if page != [] { AllOld(r, page[1..], maxEvents); }
  }

  // ---------------------------------------------------------------- handing events to the observer

  /** The loop's variables; `handed` is what the observer has been given, in order. */
  datatype Waiter = Waiter(cursor: nat, handed: seq<Event>, candidate: Option<nat>,
                           terminal: Option<(Option<nat>, nat)>)

  datatype WaitError = OtherSession | EventGap(after: nat)

  function Hand(w: Waiter, e: Event): Waiter {
    Waiter(e.sequence, w.handed + [e], if e.isCandidate then e.attempt else w.candidate,
           if e.state.Some? && Store.Terminal(e.state.value) then Some((e.attempt, e.token)) else w.terminal)
  }

  /** What the observer's cursor and attempt variables are after the events `handed`. */
  function Told(from: nat, handed: seq<Event>): Waiter {
    if handed == [] then Waiter(from, [], None, None)
    else Hand(Told(from, handed[..|handed| - 1]), handed[|handed| - 1])
  }

  /** The observer has been given consecutive sequence numbers, each once, starting after `from`. */
  ghost predicate Consecutive(w: Waiter, from: nat, session: nat) {
    Numbered(w, from, session) && w == Told(from, w.handed)
  }

  ghost predicate Numbered(w: Waiter, from: nat, session: nat) {
    && w.cursor == from + |w.handed|
    && forall i :: 0 <= i < |w.handed| ==> w.handed[i].sequence == from + i + 1 && w.handed[i].session == session
  }

  /** The event at `i` is the first to leave a gap after `cursor`. */
  predicate GapAt(page: seq<Event>, cursor: nat, i: nat)
    requires i < |page|
  {
    page[i].sequence > cursor + 1 && forall k :: 0 <= k < i ==> page[k].sequence <= cursor
  }

  ghost predicate HasGap(page: seq<Event>, cursor: nat) { exists i :: 0 <= i < |page| && GapAt(page, cursor, i) }

  /** What one page makes of the observer: everything handed came from it, and an error tells what was wrong with it. */
  ghost predicate HandedFrom(w: Waiter, next: Waiter, page: seq<Event>, session: nat, error: Option<WaitError>) {
    && w.handed <= next.handed
    && (forall i :: |w.handed| <= i < |next.handed| ==> next.handed[i] in page)
    && match error
       case None => forall e :: e in page ==> e.session == session && e.sequence <= next.cursor
       case Some(OtherSession) => exists e :: e in page && e.session != session
       case Some(EventGap(after)) => after == next.cursor && HasGap(page, next.cursor)
  }

  lemma HandNumbers(w: Waiter, from: nat, session: nat, e: Event)
    requires Consecutive(w, from, session) && e.sequence == w.cursor + 1 && e.session == session
    ensures Consecutive(Hand(w, e), from, session)
  {
    assert (w.handed + [e])[..|w.handed|] == w.handed;
  }

  /** The inner loop over one page. An error is thrown: the events handed before it stay handed. */
  method HandPage(w: Waiter, session: nat, page: seq<Event>, ghost from: nat)
    returns (next: Waiter, error: Option<WaitError>)
    requires Consecutive(w, from, session)
    ensures Consecutive(next, from, session) && HandedFrom(w, next, page, session, error)
  {
    next := w;
    for i := 0 to |page|
      invariant Consecutive(next, from, session) && w.handed <= next.handed
      invariant forall k :: |w.handed| <= k < |next.handed| ==> next.handed[k] in page
      invariant forall k :: 0 <= k < i ==> page[k].session == session && page[k].sequence <= next.cursor
    {
      var event := page[i];
      if event.session != session {
        return next, Some(OtherSession);
      }
      if event.sequence > next.cursor {
        if event.sequence != next.cursor + 1 {
          assert GapAt(page, next.cursor, i);
          return next, Some(EventGap(next.cursor));
        }
        HandNumbers(next, from, session, event);
        next := Hand(next, event);
      }
    }
    return next, None;
  }

  function PageOf(j: seq<Event>, cursor: nat): seq<Event>
    requires cursor <= |j|
  {
    j[cursor..Min(cursor + PAGE_LIMIT, |j|)]
  }

  /** What the journal is each time it is asked for a page: it only ever grows. */
  ghost predicate Growing(snapshots: seq<seq<Event>>, session: nat) {
    && (forall k :: 0 <= k < |snapshots| ==> IsJournal(snapshots[k], session))
    && forall k, l :: 0 <= k <= l < |snapshots| ==> snapshots[k] <= snapshots[l]
  }

  /**
   * Asked page by page while it grows, a journal is handed over in order, every event after the start exactly once,
   * up to where it stood when it was last asked. There is more to ask only as long as every page came full.
   */
  method DrainJournal(snapshots: seq<seq<Event>>, session: nat, w: Waiter, ghost from: nat)
    returns (done: Waiter, calls: nat, more: bool)
    requires snapshots != [] && Growing(snapshots, session) && w.cursor <= |snapshots[0]|
    requires Consecutive(w, from, session) && w.handed == snapshots[0][from..w.cursor]
    ensures 0 < calls <= |snapshots| && Consecutive(done, from, session) && done.cursor <= |snapshots[calls - 1]|
    ensures done.handed == snapshots[calls - 1][from..done.cursor]
    ensures !more ==> done.cursor == |snapshots[calls - 1]|
    ensures more ==> calls == |snapshots| && done.cursor == w.cursor + PAGE_LIMIT * calls < |snapshots[calls - 1]|
  {
    done := w;
    calls := 0;
    more := true;
    while more && calls < |snapshots|
      invariant calls <= |snapshots| && Consecutive(done, from, session)
      invariant done.cursor <= |snapshots[Max(calls - 1, 0)]|
      invariant done.handed == snapshots[Max(calls - 1, 0)][from..done.cursor]
      invariant calls == 0 ==> more
      invariant !more ==> done.cursor == |snapshots[calls - 1]|
      invariant more ==> done.cursor == w.cursor + PAGE_LIMIT * calls
      invariant more && calls > 0 ==> done.cursor < |snapshots[calls - 1]|
    {
      var j := snapshots[calls];
      StillHanded(snapshots[Max(calls - 1, 0)], j, from, done.cursor);
      done, more := ReadPage(j, session, done, from);
      calls := calls + 1;
    }
  }

  /** One turn of the loop: a page is asked for and handed over. */
  method ReadPage(j: seq<Event>, session: nat, w: Waiter, ghost from: nat) returns (next: Waiter, more: bool)
    requires IsJournal(j, session) && Consecutive(w, from, session) && w.cursor <= |j| && w.handed == j[from..w.cursor]
    ensures Consecutive(next, from, session) && next.cursor == Min(w.cursor + PAGE_LIMIT, |j|)
    ensures next.handed == j[from..next.cursor]
    ensures more <==> next.cursor < |j|
  {
    var page := PageOf(j, w.cursor);
    more := w.cursor + PAGE_LIMIT < |j|;
    var error;
    next, error := HandPage(w, session, page, from);
    HandedPage(j, session, from, w, next, page, error);
  }

  /** What was handed from a journal is still what it says there once it has grown. */
  lemma StillHanded(j: seq<Event>, longer: seq<Event>, from: nat, cursor: nat)
    requires j <= longer && from <= cursor <= |j|
    ensures cursor <= |longer| && longer[from..cursor] == j[from..cursor]
  {
  }

  lemma InPage(j: seq<Event>, session: nat, c: nat, e: Event)
    requires IsJournal(j, session) && c <= |j| && e in PageOf(j, c)
    ensures c < e.sequence <= Min(c + PAGE_LIMIT, |j|) && e == j[e.sequence - 1]
  {
    var page := PageOf(j, c);
    var k :| 0 <= k < |page| && page[k] == e;
    assert page[k] == j[c + k];
  }

  lemma NoGapInPage(j: seq<Event>, session: nat, c: nat, cursor: nat)
    requires IsJournal(j, session) && c <= |j| && c <= cursor
    ensures !HasGap(PageOf(j, c), cursor)
  {
    var page := PageOf(j, c);
    forall i | 0 <= i < |page| ensures !GapAt(page, cursor, i) {
      assert page[i].sequence == c + i + 1;
      if i > 0 { assert page[i - 1].sequence == c + i; }
    }
  }

  /** A page straight from the journal is handed over whole. */
  lemma HandedPage(j: seq<Event>, session: nat, from: nat, w: Waiter, next: Waiter, page: seq<Event>,
                   error: Option<WaitError>)
    requires IsJournal(j, session) && w.cursor <= |j| && page == PageOf(j, w.cursor)
    requires Numbered(w, from, session) && w.handed == j[from..w.cursor]
    requires Numbered(next, from, session) && HandedFrom(w, next, page, session, error)
    ensures error.None? && next.cursor == Min(w.cursor + PAGE_LIMIT, |j|) && next.handed == j[from..next.cursor]
  {
    PageIsClean(j, session, w.cursor, page, next.cursor, error);
    HandedAreJournal(j, session, from, w.handed, next.handed);
    PageReadOut(j, session, w.cursor, page, next.cursor);
  }

  /** A page of the journal gives no cause for an error. */
  lemma PageIsClean(j: seq<Event>, session: nat, c: nat, page: seq<Event>, cursor: nat, error: Option<WaitError>)
    requires IsJournal(j, session) && c <= |j| && page == PageOf(j, c) && c <= cursor
    requires error.Some? ==>
      (error.value.OtherSession? && exists e :: e in page && e.session != session) || HasGap(page, cursor)
    ensures error.None?
  {
    forall e | e in page ensures e.session == session { InPage(j, session, c, e); }
    NoGapInPage(j, session, c, cursor);
  }

  lemma PageReadOut(j: seq<Event>, session: nat, c: nat, page: seq<Event>, cursor: nat)
    requires IsJournal(j, session) && c <= |j| && page == PageOf(j, c) && c <= cursor <= Min(c + PAGE_LIMIT, |j|)
    requires forall e :: e in page ==> e.sequence <= cursor
    ensures cursor == Min(c + PAGE_LIMIT, |j|)
  {
    if page != [] {
      assert page[|page| - 1] in page && page[|page| - 1].sequence == Min(c + PAGE_LIMIT, |j|);
    }
  }

  lemma HandedAreJournal(j: seq<Event>, session: nat, from: nat, before: seq<Event>, after: seq<Event>)
    requires IsJournal(j, session) && from + |before| <= |j| && before == j[from..from + |before|] && before <= after
    requires forall i :: |before| <= i < |after| ==>
      after[i].sequence == from + i + 1 && after[i] in PageOf(j, from + |before|)
    ensures from + |after| <= Min(from + |before| + PAGE_LIMIT, |j|) && after == j[from..from + |after|]
  {
    var c := from + |before|;
    if |after| > |before| { InPage(j, session, c, after[|after| - 1]); }
    assert after == before + after[|before|..];
    forall i | 0 <= i < |after| - |before| ensures after[|before|..][i] == j[c..from + |after|][i] {
      InPage(j, session, c, after[|before| + i]);
    }
    assert after[|before|..] == j[c..from + |after|];
  }
}
