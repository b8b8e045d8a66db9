/**
 * Line diff and selective patch of AI edit proposals (src/lib/aiEdit.ts).
 *
 * `DiffAiEditLines` walks both texts and cuts out hunks; `ApplyAiEditHunks` splices a chosen subset of
 * them back, right to left, into one mutable list of lines. The reference meaning of a selection is
 * `Chosen`, which reads the base from left to right and never moves an index.
 */
module AiEdit {
  import opened Prelude
  import opened Text

  const ANCHOR_WINDOW: nat := 80

  // The source formats the three numbers into one string; the numbers determine the string and conversely.
  datatype HunkId = HunkId(oldStart: nat, newStart: nat, ordinal: nat)

  datatype Hunk<T> = Hunk(id: HunkId, oldStart: nat, oldLines: seq<T>, newStart: nat, newLines: seq<T>) {
    function OldEnd(): nat { oldStart + |oldLines| }
    function NewEnd(): nat { newStart + |newLines| }
  }

  datatype Anchor = Anchor(oldIndex: nat, newIndex: nat)

  // ---------------------------------------------------------------- anchors

  ghost predicate Same<T>(prev: seq<T>, curr: seq<T>, i: nat, j: nat) {
    i < |prev| && j < |curr| && prev[i] == curr[j]
  }

  /** `a` is a pair of equal lines inside the window, other than the start itself. */
  ghost predicate IsAnchor<T>(prev: seq<T>, curr: seq<T>, i: nat, j: nat, a: Anchor) {
    && i <= a.oldIndex < i + ANCHOR_WINDOW && j <= a.newIndex < j + ANCHOR_WINDOW
    && (a.oldIndex != i || a.newIndex != j)
    && Same(prev, curr, a.oldIndex, a.newIndex)
  }

  function Distance(i: nat, j: nat, a: Anchor): int {
    a.oldIndex - i + (a.newIndex - j)
  }

  /** `a` is no farther than `b`, and where equally far it starts no later in the old text. */
  ghost predicate NotAfter(i: nat, j: nat, a: Anchor, b: Anchor) {
    || Distance(i, j, a) < Distance(i, j, b)
    || (Distance(i, j, a) == Distance(i, j, b) && a.oldIndex <= b.oldIndex)
  }

  ghost predicate IsBestAnchor<T>(prev: seq<T>, curr: seq<T>, i: nat, j: nat, best: Option<Anchor>) {
    match best
    case None => forall a :: !IsAnchor(prev, curr, i, j, a)
    case Some(b) => IsAnchor(prev, curr, i, j, b)
                    && forall a :: IsAnchor(prev, curr, i, j, a) ==> NotAfter(i, j, b, a)
  }

  /** `b` is the best pair among those scanned before (row `i'`, column `j'`). */
  ghost predicate BestBefore<T>(prev: seq<T>, curr: seq<T>, i: nat, j: nat, row: nat, col: nat,
                             best: Option<Anchor>)
  {
    && (best.Some? ==> IsAnchor(prev, curr, i, j, best.value))
    && forall a :: IsAnchor(prev, curr, i, j, a) && (a.oldIndex < row || (a.oldIndex == row && a.newIndex < col)) ==>
         best.Some? && NotAfter(i, j, best.value, a)
  }

  method NextAnchor<T(==)>(prev: seq<T>, curr: seq<T>, oldStart: nat, newStart: nat) returns (best: Option<Anchor>)
    ensures IsBestAnchor(prev, curr, oldStart, newStart, best)
  {
    best := None;
    var oldLimit := Min(|prev|, oldStart + ANCHOR_WINDOW);
    var newLimit := Min(|curr|, newStart + ANCHOR_WINDOW);
    var oldIndex := oldStart;
    while oldIndex < oldLimit
      invariant oldStart <= oldIndex <= Max(oldStart, oldLimit)
      invariant BestBefore(prev, curr, oldStart, newStart, oldIndex, newStart, best)
      invariant best.Some? ==> best.value.oldIndex < oldIndex
    {
      var newIndex := newStart;
      while newIndex < newLimit
        invariant newStart <= newIndex <= Max(newStart, newLimit)
        invariant BestBefore(prev, curr, oldStart, newStart, oldIndex, newIndex, best)
        invariant best.Some? ==> best.value.oldIndex <= oldIndex
      {
        if !(oldIndex == oldStart && newIndex == newStart) && prev[oldIndex] == curr[newIndex] {
          var here := Anchor(oldIndex, newIndex);
          if best.None? || Distance(oldStart, newStart, here) < Distance(oldStart, newStart, best.value) {
            best := Some(here);
          }
        }
        newIndex := newIndex + 1;
      }
      oldIndex := oldIndex + 1;
    }
  }

  // ---------------------------------------------------------------- diff

  /** The two texts agree on the stretch that starts at `(i, j)` and ends at `(i', j')`. */
  ghost predicate Common<T>(prev: seq<T>, curr: seq<T>, i: nat, j: nat, i': nat, j': nat) {
    && i <= i' <= |prev| && j <= j' <= |curr|
    && prev[i..i'] == curr[j..j']
  }

  /** Where the stretch before hunk `k` begins: the end of the hunk before it, or the start of both texts. */
  function GapOld<T>(hs: seq<Hunk<T>>, k: nat): nat
    requires k <= |hs|
  {
    if k == 0 then 0 else hs[k - 1].OldEnd()
  }

  function GapNew<T>(hs: seq<Hunk<T>>, k: nat): nat
    requires k <= |hs|
  {
    if k == 0 then 0 else hs[k - 1].NewEnd()
  }

  /**
   * Hunk `k` cuts its own stretch out of both texts and follows a common stretch, which is not empty
   * when it separates two hunks.
   */
  ghost predicate HunkAt<T>(prev: seq<T>, curr: seq<T>, hs: seq<Hunk<T>>, k: nat)
    requires k < |hs|
  {
    var h := hs[k];
    && h.OldEnd() <= |prev| && h.NewEnd() <= |curr|
    && h.oldLines == prev[h.oldStart..h.OldEnd()]
    && h.newLines == curr[h.newStart..h.NewEnd()]
    && |h.oldLines| + |h.newLines| > 0
    && h.id == HunkId(h.oldStart, h.newStart, k)
    && Common(prev, curr, GapOld(hs, k), GapNew(hs, k), h.oldStart, h.newStart)
    && (k > 0 ==> hs[k - 1].OldEnd() < h.oldStart)
  }

  /** `hs` lays the first `i` old lines out against the first `j` new lines. */
  ghost predicate Layout<T>(prev: seq<T>, curr: seq<T>, hs: seq<Hunk<T>>, i: nat, j: nat) {
    && (forall k :: 0 <= k < |hs| ==> HunkAt(prev, curr, hs, k))
    && Common(prev, curr, GapOld(hs, |hs|), GapNew(hs, |hs|), i, j)
  }

  /** `h` starts at a mismatch and stops at the best anchor, or at the end of both texts if there is none. */
  ghost predicate Anchored<T>(prev: seq<T>, curr: seq<T>, h: Hunk<T>) {
    && !Same(prev, curr, h.oldStart, h.newStart)
    && (|| IsBestAnchor(prev, curr, h.oldStart, h.newStart, Some(Anchor(h.OldEnd(), h.NewEnd())))
        || (&& IsBestAnchor(prev, curr, h.oldStart, h.newStart, None)
            && h.OldEnd() == |prev| && h.NewEnd() == |curr|))
  }

  ghost predicate AllAnchored<T>(prev: seq<T>, curr: seq<T>, hs: seq<Hunk<T>>) {
    forall k :: 0 <= k < |hs| ==> Anchored(prev, curr, hs[k])
  }

  /** The walk stands at `(i, j)`: what it has cut so far, and a common line or the end after the last hunk. */
  ghost predicate WalkedTo<T>(prev: seq<T>, curr: seq<T>, hs: seq<Hunk<T>>, i: nat, j: nat) {
    && Layout(prev, curr, hs, i, j) && AllAnchored(prev, curr, hs)
    && (hs != [] ==>
          || hs[|hs| - 1].OldEnd() < i
          || Same(prev, curr, i, j)
          || (i == |prev| && j == |curr|))
  }

  /** One more common line. */
  lemma WalkCommon<T>(prev: seq<T>, curr: seq<T>, hs: seq<Hunk<T>>, i: nat, j: nat)
    requires WalkedTo(prev, curr, hs, i, j) && Same(prev, curr, i, j)
    ensures WalkedTo(prev, curr, hs, i + 1, j + 1)
  {
    var p, q := GapOld(hs, |hs|), GapNew(hs, |hs|);
    assert prev[p..i + 1] == prev[p..i] + [prev[i]];
    assert curr[q..j + 1] == curr[q..j] + [curr[j]];
  }

  function CutAt<T>(prev: seq<T>, curr: seq<T>, i: nat, j: nat, anchor: Option<Anchor>, ordinal: nat): Hunk<T>
    requires i <= |prev| && j <= |curr|
    requires anchor.Some? ==> i <= anchor.value.oldIndex <= |prev| && j <= anchor.value.newIndex <= |curr|
  {
    var oldEnd := if anchor.Some? then anchor.value.oldIndex else |prev|;
    var newEnd := if anchor.Some? then anchor.value.newIndex else |curr|;
    Hunk(HunkId(i, j, ordinal), i, prev[i..oldEnd], j, curr[j..newEnd])
  }

  lemma HunkAtSnoc<T>(prev: seq<T>, curr: seq<T>, hs: seq<Hunk<T>>, h: Hunk<T>, k: nat)
    requires k < |hs| && HunkAt(prev, curr, hs, k)
    ensures HunkAt(prev, curr, hs + [h], k)
  {
    assert (hs + [h])[k] == hs[k] && (k > 0 ==> (hs + [h])[k - 1] == hs[k - 1]);
  }

  lemma NewHunkAnchored<T>(prev: seq<T>, curr: seq<T>, i: nat, j: nat, anchor: Option<Anchor>, ordinal: nat)
    requires !Same(prev, curr, i, j) && i <= |prev| && j <= |curr| && (i < |prev| || j < |curr|)
    requires IsBestAnchor(prev, curr, i, j, anchor)
    ensures Anchored(prev, curr, CutAt(prev, curr, i, j, anchor, ordinal))
  {
  }

  lemma NewHunkAt<T>(prev: seq<T>, curr: seq<T>, hs: seq<Hunk<T>>, i: nat, j: nat, anchor: Option<Anchor>)
    requires WalkedTo(prev, curr, hs, i, j) && !Same(prev, curr, i, j) && (i < |prev| || j < |curr|)
    requires IsBestAnchor(prev, curr, i, j, anchor)
    ensures var h := CutAt(prev, curr, i, j, anchor, |hs|);
            HunkAt(prev, curr, hs + [h], |hs|) && Anchored(prev, curr, h)
  {
    var h := CutAt(prev, curr, i, j, anchor, |hs|);
    NewHunkAnchored(prev, curr, i, j, anchor, |hs|);
    assert (hs + [h])[|hs|] == h && GapOld(hs + [h], |hs|) == GapOld(hs, |hs|) &&
        GapNew(hs + [h], |hs|) == GapNew(hs, |hs|);
  }

  /** A hunk cut from a mismatch to the best anchor. */
  lemma WalkHunk<T>(prev: seq<T>, curr: seq<T>, hs: seq<Hunk<T>>, i: nat, j: nat, anchor: Option<Anchor>)
    requires WalkedTo(prev, curr, hs, i, j) && !Same(prev, curr, i, j) && (i < |prev| || j < |curr|)
    requires IsBestAnchor(prev, curr, i, j, anchor)
    ensures var h := CutAt(prev, curr, i, j, anchor, |hs|);
            WalkedTo(prev, curr, hs + [h], h.OldEnd(), h.NewEnd())
  {
    var h := CutAt(prev, curr, i, j, anchor, |hs|);
    NewHunkAt(prev, curr, hs, i, j, anchor);
    forall k | 0 <= k < |hs + [h]| ensures HunkAt(prev, curr, hs + [h], k) {
      if k < |hs| { HunkAtSnoc(prev, curr, hs, h, k); }
    }
  }

  method DiffLines<T(==)>(prev: seq<T>, curr: seq<T>) returns (hunks: seq<Hunk<T>>)
    ensures Layout(prev, curr, hunks, |prev|, |curr|) && AllAnchored(prev, curr, hunks)
  {
    hunks := [];
    var oldIndex: nat, newIndex: nat := 0, 0;
    while oldIndex < |prev| || newIndex < |curr|
      invariant oldIndex <= |prev| && newIndex <= |curr|
      invariant WalkedTo(prev, curr, hunks, oldIndex, newIndex)
      decreases |prev| - oldIndex + |curr| - newIndex
    {
      if oldIndex < |prev| && newIndex < |curr| && prev[oldIndex] == curr[newIndex] {
        WalkCommon(prev, curr, hunks, oldIndex, newIndex);
        oldIndex := oldIndex + 1;
        newIndex := newIndex + 1;
        continue;
      }
      var oldStart, newStart := oldIndex, newIndex;
      var anchor := NextAnchor(prev, curr, oldIndex, newIndex);
      WalkHunk(prev, curr, hunks, oldIndex, newIndex, anchor);
      var oldEnd := if anchor.Some? then anchor.value.oldIndex else |prev|;
      var newEnd := if anchor.Some? then anchor.value.newIndex else |curr|;
      hunks := hunks + [Hunk(HunkId(oldStart, newStart, |hunks|), oldStart, prev[oldStart..oldEnd],
                             newStart, curr[newStart..newEnd])];
      oldIndex := oldEnd;
      newIndex := newEnd;
    }
  }

  method DiffAiEditLines(previous: string, current: string) returns (hunks: seq<Hunk<string>>)
    ensures IsProposal(previous, current, hunks)
  {
    hunks := DiffLines(Split(previous), Split(current));
  }

  ghost predicate IsProposal(base: string, proposed: string, hunks: seq<Hunk<string>>) {
    && Layout(Split(base), Split(proposed), hunks, |Split(base)|, |Split(proposed)|)
    && AllAnchored(Split(base), Split(proposed), hunks)
  }

  /** From one place, two common stretches that both run into a mismatch stop at the same mismatch. */
  lemma SameStretch<T>(prev: seq<T>, curr: seq<T>, p: nat, q: nat, i: nat, j: nat, i': nat, j': nat)
    requires Common(prev, curr, p, q, i, j) && Common(prev, curr, p, q, i', j')
    requires !Same(prev, curr, i, j) && !Same(prev, curr, i', j')
    ensures i == i' && j == j'
  {
    assert |prev[p..i]| == |curr[q..j]| && |prev[p..i']| == |curr[q..j']|;
    assert forall x :: 0 <= x < |prev[p..i]| ==> prev[p..i][x] == curr[q..j][x] == prev[p + x];
    assert forall x :: 0 <= x < |prev[p..i']| ==> prev[p..i'][x] == curr[q..j'][x] == prev[p + x];
  }

  /** Two hunks cut from the same mismatch are the same cut. */
  lemma SameCut<T>(prev: seq<T>, curr: seq<T>, g: Hunk<T>, h: Hunk<T>)
    requires Anchored(prev, curr, g) && Anchored(prev, curr, h)
    requires g.oldStart == h.oldStart && g.newStart == h.newStart
    ensures g.OldEnd() == h.OldEnd() && g.NewEnd() == h.NewEnd()
  {
  }

  /** After a common prefix of hunks the next two hunks are equal. */
  lemma NextHunksAgree<T>(prev: seq<T>, curr: seq<T>, a: seq<Hunk<T>>, b: seq<Hunk<T>>, k: nat)
    requires k < |a| && k < |b| && a[..k] == b[..k]
    requires HunkAt(prev, curr, a, k) && HunkAt(prev, curr, b, k)
    requires Anchored(prev, curr, a[k]) && Anchored(prev, curr, b[k])
    ensures a[k] == b[k]
  {
    GapsAgree(a, b, k);
    SameStretch(prev, curr, GapOld(a, k), GapNew(a, k), a[k].oldStart, a[k].newStart, b[k].oldStart, b[k].newStart);
    assert a[k].oldStart == b[k].oldStart && a[k].newStart == b[k].newStart;
    SameCut(prev, curr, a[k], b[k]);
  }

  lemma {:induction false} PrefixesAgree<T>(prev: seq<T>, curr: seq<T>, a: seq<Hunk<T>>, b: seq<Hunk<T>>, k: nat)
    requires Layout(prev, curr, a, |prev|, |curr|) && AllAnchored(prev, curr, a)
    requires Layout(prev, curr, b, |prev|, |curr|) && AllAnchored(prev, curr, b)
    requires k <= |a| && k <= |b|
    ensures a[..k] == b[..k]
  {
    if k > 0 {
      PrefixesAgree(prev, curr, a, b, k - 1);
      NextHunksAgree(prev, curr, a, b, k - 1);
      assert a[..k] == a[..k - 1] + [a[k - 1]];
      assert b[..k] == b[..k - 1] + [b[k - 1]];
    }
  }

  lemma GapsAgree<T>(a: seq<Hunk<T>>, b: seq<Hunk<T>>, k: nat)
    requires k <= |a| && k <= |b| && a[..k] == b[..k]
    ensures GapOld(a, k) == GapOld(b, k) && GapNew(a, k) == GapNew(b, k)
  {
    if k > 0 { assert a[k - 1] == a[..k][k - 1] == b[..k][k - 1]; }
  }

  /** No diff goes on where another diff of the same texts has ended. */
  lemma ShorterIsWhole<T>(prev: seq<T>, curr: seq<T>, a: seq<Hunk<T>>, b: seq<Hunk<T>>)
    requires Layout(prev, curr, a, |prev|, |curr|) && AllAnchored(prev, curr, a)
    requires Layout(prev, curr, b, |prev|, |curr|) && AllAnchored(prev, curr, b)
    requires |a| <= |b|
    ensures |a| == |b|
  {
    PrefixesAgree(prev, curr, a, b, |a|);
    if |a| < |b| {
      var k, h := |a|, b[|a|];
      assert HunkAt(prev, curr, b, k) && Anchored(prev, curr, h);
      GapsAgree(a, b, k);
      SameStretch(prev, curr, GapOld(a, k), GapNew(a, k), |prev|, |curr|, h.oldStart, h.newStart);
    }
  }

  /** The diff is determined by the two texts: nothing is left to the walk. */
  lemma DiffUnique(base: string, proposed: string, a: seq<Hunk<string>>, b: seq<Hunk<string>>)
    requires IsProposal(base, proposed, a) && IsProposal(base, proposed, b)
    ensures a == b
  {
    var prev, curr := Split(base), Split(proposed);
    if |a| <= |b| {
      ShorterIsWhole(prev, curr, a, b);
    } else {
      ShorterIsWhole(prev, curr, b, a);
    }
    PrefixesAgree(prev, curr, a, b, |a|);
    assert a[..|a|] == a && b[..|b|] == b;
  }

  // ---------------------------------------------------------------- patch

  /** Array.prototype.splice: both the start and the count are clamped to the array. */
  function Splice<T>(lines: seq<T>, start: nat, deleteCount: nat, inserted: seq<T>): seq<T> {
    var from := Min(start, |lines|);
    lines[..from] + inserted + lines[Min(from + deleteCount, |lines|)..]
  }

  function SpliceAll<T>(lines: seq<T>, hs: seq<Hunk<T>>): seq<T>
    decreases |hs|
  {
    if hs == [] then lines
    else SpliceAll(Splice(lines, hs[0].oldStart, |hs[0].oldLines|, hs[0].newLines), hs[1..])
  }

  /** Stable insertion into a list ordered by descending `oldStart`; later equals go after earlier ones. */
  function InsertDescending<T>(h: Hunk<T>, sorted: seq<Hunk<T>>): (r: seq<Hunk<T>>)
    ensures multiset(r) == multiset(sorted) + multiset{h}
  {
    if sorted == [] then [h]
    else if h.oldStart >= sorted[0].oldStart then
      assert sorted == [sorted[0]] + sorted[1..];
      [h] + sorted
    else
      assert sorted == [sorted[0]] + sorted[1..];
      [sorted[0]] + InsertDescending(h, sorted[1..])
  }

  function SortDescending<T>(hs: seq<Hunk<T>>): (r: seq<Hunk<T>>)
    ensures multiset(r) == multiset(hs)
  {
    if hs == [] then []
    else
      assert hs == [hs[0]] + hs[1..];
      InsertDescending(hs[0], SortDescending(hs[1..]))
  }

  function Selected<T(!new)>(hunks: seq<Hunk<T>>, ids: set<HunkId>): seq<Hunk<T>> {
    Filter(hunks, (h: Hunk<T>) => h.id in ids)
  }

  method ApplyAiEditHunks(baseValue: string, hunks: seq<Hunk<string>>, selectedIds: set<HunkId>) returns (text: string)
    ensures text == Join(SpliceAll(Split(baseValue), SortDescending(Selected(hunks, selectedIds))))
  {
    var lines := Split(baseValue);
    var selected := SortDescending(Selected(hunks, selectedIds));
    var k := 0;
    while k < |selected|
      invariant k <= |selected|
      invariant SpliceAll(lines, selected[k..]) == SpliceAll(Split(baseValue), selected)
    {
      assert selected[k..][1..] == selected[k + 1..];
      lines := Splice(lines, selected[k].oldStart, |selected[k].oldLines|, selected[k].newLines);
      k := k + 1;
    }
    text := Join(lines);
  }

  // ---------------------------------------------------------------- what a selection means

  ghost predicate FitsAt<T>(prev: seq<T>, hs: seq<Hunk<T>>, k: nat)
    requires k < |hs|
  {
    && GapOld(hs, k) <= hs[k].oldStart && hs[k].OldEnd() <= |prev|
    && hs[k].oldLines == prev[hs[k].oldStart..hs[k].OldEnd()]
  }

  /** Hunks stand in the order of the old text, do not overlap, and quote it. */
  ghost predicate Fits<T>(prev: seq<T>, hs: seq<Hunk<T>>) {
    forall k :: 0 <= k < |hs| ==> FitsAt(prev, hs, k)
  }

  function Piece<T>(h: Hunk<T>, ids: set<HunkId>): seq<T> {
    if h.id in ids then h.newLines else h.oldLines
  }

  /**
   * The text chosen up to the end of hunk `k - 1`, read from left to right: selected hunks contribute
   * their new lines, the others their old lines, and the stretches between them come from the base.
   */
  ghost function ChosenTo<T>(prev: seq<T>, hs: seq<Hunk<T>>, ids: set<HunkId>, k: nat): seq<T>
    requires Fits(prev, hs) && k <= |hs|
  {
    if k == 0 then []
    else
      assert FitsAt(prev, hs, k - 1);
      ChosenTo(prev, hs, ids, k - 1) + prev[GapOld(hs, k - 1)..hs[k - 1].oldStart] + Piece(hs[k - 1], ids)
  }

  ghost function Chosen<T>(prev: seq<T>, hs: seq<Hunk<T>>, ids: set<HunkId>): seq<T>
    requires Fits(prev, hs)
  {
    assert |hs| > 0 ==> FitsAt(prev, hs, |hs| - 1);
    ChosenTo(prev, hs, ids, |hs|) + prev[GapOld(hs, |hs|)..]
  }

  lemma LayoutFits<T>(prev: seq<T>, curr: seq<T>, hs: seq<Hunk<T>>, i: nat, j: nat)
    requires Layout(prev, curr, hs, i, j)
    ensures Fits(prev, hs)
  {
    forall k | 0 <= k < |hs| ensures FitsAt(prev, hs, k) {
      assert HunkAt(prev, curr, hs, k);
    }
  }

  /** Hunks of a diff are strictly ordered with at least one line between them, so their ids differ. */
  lemma {:induction false} HunksOrdered<T>(prev: seq<T>, curr: seq<T>, hs: seq<Hunk<T>>, i: nat, j: nat, k: nat, l: nat)
    requires Layout(prev, curr, hs, i, j) && k < l < |hs|
    ensures hs[k].OldEnd() < hs[l].oldStart && hs[k].id != hs[l].id
  {
    assert HunkAt(prev, curr, hs, k) && HunkAt(prev, curr, hs, l);
    if k < l - 1 {
      HunksOrdered(prev, curr, hs, i, j, k, l - 1);
    }
  }

  ghost predicate StrictlyOrdered<T>(hs: seq<Hunk<T>>) {
    forall k, l :: 0 <= k < l < |hs| ==> hs[k].oldStart < hs[l].oldStart
  }

  lemma {:induction false} InsertFirst<T(!new)>(h: Hunk<T>, sorted: seq<Hunk<T>>)
    requires forall g :: g in sorted ==> h.oldStart < g.oldStart
    ensures InsertDescending(h, sorted) == sorted + [h]
  {
    if sorted != [] {
      assert sorted[0] in sorted;
      InsertFirst(h, sorted[1..]);
    }
  }

  lemma {:induction false} ReversedElements<T(!new)>(hs: seq<Hunk<T>>)
    ensures forall h :: h in Reversed(hs) <==> h in hs
  {
    if hs != [] {
      ReversedElements(hs[1..]);
    }
  }

  lemma {:induction false} SortIsReverse<T(!new)>(hs: seq<Hunk<T>>)
    requires StrictlyOrdered(hs)
    ensures SortDescending(hs) == Reversed(hs)
  {
    if hs != [] {
      SortIsReverse(hs[1..]);
      ReversedElements(hs[1..]);
      forall g | g in Reversed(hs[1..]) ensures hs[0].oldStart < g.oldStart {
        var k :| 0 <= k < |hs[1..]| && hs[1..][k] == g;
        assert hs[k + 1] == g;
      }
      InsertFirst(hs[0], Reversed(hs[1..]));
    }
  }

  lemma {:induction false} SelectedOrdered<T(!new)>(hs: seq<Hunk<T>>, ids: set<HunkId>)
    requires StrictlyOrdered(hs)
    ensures StrictlyOrdered(Selected(hs, ids))
  {
    if hs != [] {
      SelectedOrdered(hs[1..], ids);
      FilterMembers(hs[1..], (h: Hunk<T>) => h.id in ids);
      var tail := Selected(hs[1..], ids);
      forall g | g in tail ensures hs[0].oldStart < g.oldStart {
        var k :| 0 <= k < |hs[1..]| && hs[1..][k] == g;
        assert hs[k + 1] == g;
      }
    }
  }

  lemma {:induction false} ReversedSnoc<T>(hs: seq<Hunk<T>>, h: Hunk<T>)
    ensures Reversed(hs + [h]) == [h] + Reversed(hs)
  {
    if hs != [] {
      ReversedSnoc(hs[1..], h);
      assert (hs + [h])[1..] == hs[1..] + [h];
    }
  }

  /** What the selection of the first `k` hunks gains from hunk `k - 1`. */
  lemma SelectedSnoc<T(!new)>(hs: seq<Hunk<T>>, ids: set<HunkId>, k: nat)
    requires 0 < k <= |hs|
    ensures Selected(hs[..k], ids) == Selected(hs[..k - 1], ids) + (if hs[k - 1].id in ids then [hs[k - 1]] else [])
  {
    var keep := (g: Hunk<T>) => g.id in ids;
    assert hs[..k] == hs[..k - 1] + [hs[k - 1]];
    FilterConcat(hs[..k - 1], [hs[k - 1]], keep);
  }

  /** One splice replaces the stretch of `h` and leaves everything before and after it alone. */
  lemma SpliceOne<T>(prev: seq<T>, h: Hunk<T>, g: nat, tail: seq<T>)
    requires g <= h.oldStart && h.OldEnd() <= |prev|
    ensures Splice(prev[..h.OldEnd()] + tail, h.oldStart, |h.oldLines|, h.newLines)
         == prev[..g] + (prev[g..h.oldStart] + h.newLines + tail)
  {
  }

  /** Whether or not `h` is selected, dealing with it turns its stretch into its piece. */
  lemma SpliceStep<T>(prev: seq<T>, h: Hunk<T>, g: nat, ids: set<HunkId>, tail: seq<T>, order: seq<Hunk<T>>)
    requires g <= h.oldStart && h.OldEnd() <= |prev| && h.oldLines == prev[h.oldStart..h.OldEnd()]
    ensures SpliceAll(prev[..h.OldEnd()] + tail, (if h.id in ids then [h] else []) + order)
         == SpliceAll(prev[..g] + (prev[g..h.oldStart] + Piece(h, ids) + tail), order)
  {
    if h.id in ids {
      SpliceOne(prev, h, g, tail);
      assert ([h] + order)[1..] == order;
    } else {
      assert [] + order == order;
      Slices(prev, g, h.oldStart, h.OldEnd());
      assert prev[..h.OldEnd()] + tail == prev[..g] + (prev[g..h.oldStart] + h.oldLines + tail);
    }
  }

  lemma ReversedSelectedSnoc<T(!new)>(hs: seq<Hunk<T>>, ids: set<HunkId>, k: nat)
    requires 0 < k <= |hs|
    ensures Reversed(Selected(hs[..k], ids))
         == (if hs[k - 1].id in ids then [hs[k - 1]] else []) + Reversed(Selected(hs[..k - 1], ids))
  {
    SelectedSnoc(hs, ids, k);
    var rest := Selected(hs[..k - 1], ids);
    ReversedSnoc(rest, hs[k - 1]);
    assert rest + [] == rest;
  }

  /** Splicing from the right never disturbs the lines a remaining hunk refers to. */
  lemma {:induction false} SpliceRightToLeft<T(!new)>(prev: seq<T>, hs: seq<Hunk<T>>, ids: set<HunkId>, k: nat,
                                                      tail: seq<T>)
    requires Fits(prev, hs) && k <= |hs|
    ensures GapOld(hs, k) <= |prev|
    ensures SpliceAll(prev[..GapOld(hs, k)] + tail, Reversed(Selected(hs[..k], ids))) ==
      ChosenTo(prev, hs, ids, k) + tail
  {
    if k > 0 {
      var h, g := hs[k - 1], GapOld(hs, k - 1);
      assert FitsAt(prev, hs, k - 1);
      var gap := prev[g..h.oldStart];
      var piece := Piece(h, ids);
      ReversedSelectedSnoc(hs, ids, k);
      SpliceStep(prev, h, g, ids, tail, Reversed(Selected(hs[..k - 1], ids)));
      SpliceRightToLeft(prev, hs, ids, k - 1, gap + piece + tail);
      ConcatInner(ChosenTo(prev, hs, ids, k - 1), gap, piece, tail);
    }
  }

  /** Sorting the selected hunks by descending position reverses their order. */
  lemma SelectedSorts<T(!new)>(prev: seq<T>, curr: seq<T>, hs: seq<Hunk<T>>, ids: set<HunkId>)
    requires Layout(prev, curr, hs, |prev|, |curr|)
    ensures SortDescending(Selected(hs, ids)) == Reversed(Selected(hs, ids))
  {
    forall k, l | 0 <= k < l < |hs| ensures hs[k].oldStart < hs[l].oldStart {
      HunksOrdered(prev, curr, hs, |prev|, |curr|, k, l);
    }
    SelectedOrdered(hs, ids);
    SortIsReverse(Selected(hs, ids));
  }

  lemma ReversedIsChosen<T(!new)>(prev: seq<T>, hs: seq<Hunk<T>>, ids: set<HunkId>)
    requires Fits(prev, hs)
    ensures SpliceAll(prev, Reversed(Selected(hs, ids))) == Chosen(prev, hs, ids)
  {
    assert |hs| > 0 ==> FitsAt(prev, hs, |hs| - 1);
    var g := GapOld(hs, |hs|);
    assert hs[..|hs|] == hs;
    SpliceRightToLeft(prev, hs, ids, |hs|, prev[g..]);
    assert prev[..g] + prev[g..] == prev;
  }

  /** Applying any subset of a layout's hunks gives the chosen lines. */
  lemma ApplyIsChosen<T(!new)>(prev: seq<T>, curr: seq<T>, hs: seq<Hunk<T>>, ids: set<HunkId>)
    requires Layout(prev, curr, hs, |prev|, |curr|)
    ensures Fits(prev, hs)
    ensures SpliceAll(prev, SortDescending(Selected(hs, ids))) == Chosen(prev, hs, ids)
  {
    LayoutFits(prev, curr, hs, |prev|, |curr|);
    SelectedSorts(prev, curr, hs, ids);
    ReversedIsChosen(prev, hs, ids);
  }

  lemma {:induction false} ChosenAll<T>(prev: seq<T>, curr: seq<T>, hs: seq<Hunk<T>>, ids: set<HunkId>, k: nat)
    requires (forall l :: 0 <= l < |hs| ==> HunkAt(prev, curr, hs, l)) && Fits(prev, hs) && k <= |hs|
    requires forall l :: 0 <= l < |hs| ==> hs[l].id in ids
    ensures GapNew(hs, k) <= |curr| && ChosenTo(prev, hs, ids, k) == curr[..GapNew(hs, k)]
  {
    if k > 0 {
      ChosenAll(prev, curr, hs, ids, k - 1);
      assert HunkAt(prev, curr, hs, k - 1);
      Slices(curr, GapNew(hs, k - 1), hs[k - 1].newStart, hs[k - 1].NewEnd());
    }
  }

  lemma {:induction false} ChosenNone<T>(prev: seq<T>, hs: seq<Hunk<T>>, ids: set<HunkId>, k: nat)
    requires Fits(prev, hs) && k <= |hs|
    requires forall l :: 0 <= l < |hs| ==> hs[l].id !in ids
    ensures GapOld(hs, k) <= |prev| && ChosenTo(prev, hs, ids, k) == prev[..GapOld(hs, k)]
  {
    if k > 0 {
      ChosenNone(prev, hs, ids, k - 1);
      assert FitsAt(prev, hs, k - 1);
      Slices(prev, GapOld(hs, k - 1), hs[k - 1].oldStart, hs[k - 1].OldEnd());
    }
  }

  /** All hunks chosen: the new lines. No hunk chosen: the old lines. */
  lemma ChosenExtremes<T>(prev: seq<T>, curr: seq<T>, hs: seq<Hunk<T>>, ids: set<HunkId>)
    requires Layout(prev, curr, hs, |prev|, |curr|) && Fits(prev, hs)
    ensures (forall k :: 0 <= k < |hs| ==> hs[k].id in ids) ==> Chosen(prev, hs, ids) == curr
    ensures (forall k :: 0 <= k < |hs| ==> hs[k].id !in ids) ==> Chosen(prev, hs, ids) == prev
  {
    var p, q := GapOld(hs, |hs|), GapNew(hs, |hs|);
    assert prev[p..] == prev[p..|prev|] && curr[q..] == curr[q..|curr|];
    if forall k :: 0 <= k < |hs| ==> hs[k].id in ids {
      ChosenAll(prev, curr, hs, ids, |hs|);
      assert curr == curr[..q] + curr[q..];
    }
    if forall k :: 0 <= k < |hs| ==> hs[k].id !in ids {
      ChosenNone(prev, hs, ids, |hs|);
      assert prev == prev[..p] + prev[p..];
    }
  }

  /** Accepting every hunk yields the proposed text; accepting none yields the base text. */
  lemma ApplyRoundTrip(base: string, proposed: string, hunks: seq<Hunk<string>>, ids: set<HunkId>)
    requires IsProposal(base, proposed, hunks)
    ensures (forall k :: 0 <= k < |hunks| ==> hunks[k].id in ids) ==>
      Join(SpliceAll(Split(base), SortDescending(Selected(hunks, ids)))) == proposed
    ensures (forall k :: 0 <= k < |hunks| ==> hunks[k].id !in ids) ==>
      Join(SpliceAll(Split(base), SortDescending(Selected(hunks, ids)))) == base
  {
    ApplyIsChosen(Split(base), Split(proposed), hunks, ids);
    ChosenExtremes(Split(base), Split(proposed), hunks, ids);
    JoinSplit(base);
    JoinSplit(proposed);
  }

  /** A proposal has no hunk exactly when it proposes the text it started from. */
  lemma NoHunksIffEqual(base: string, proposed: string, hunks: seq<Hunk<string>>)
    requires IsProposal(base, proposed, hunks)
    ensures hunks == [] <==> base == proposed
  {
    if base == proposed {
      assert IsProposal(base, base, []);
      DiffUnique(base, proposed, hunks, []);
    }
    if hunks == [] {
      ApplyRoundTrip(base, proposed, hunks, {});
    }
  }
}
