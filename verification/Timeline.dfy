/**
 * Folding an Agent run's logs into timeline activities (src/lib/agentTimeline.ts, timelineActivities).
 *
 * What a log's text says (key, title, status, sections, and whether it reports the end of the session) is part of
 * the log here. Keys, titles and lines are only ever compared, and numbers stand for them.
 */
module Timeline {
  import opened Prelude

  datatype Status = Running | Done | Failed | Waiting | Cancelled | Neutral

  datatype Section = Section(title: nat, lines: seq<nat>)

  /**
   * `titled` is false of a log whose title came out empty; `ends` is the terminal status its lifecycle state stands
   * for.
   */
  datatype Log = Log(id: nat, titled: bool, key: nat, status: Status, ends: Option<Status>, sections: seq<Section>)

  /** Title, summary and importance are those of `log`. `at` is history: which of the accepted logs that is. */
  datatype Activity = Activity(key: nat, log: Log, status: Status, repeat: nat, sections: seq<Section>, at: nat)

  type LineIndex = map<nat, set<nat>>

  // ---------------------------------------------------------------- sections

  predicate DistinctTitles(sections: seq<Section>) {
    forall i, j :: 0 <= i < j < |sections| ==> sections[i].title != sections[j].title
  }

  function LinesOf(s: Section): set<nat> { set k | 0 <= k < |s.lines| :: s.lines[k] }

  /** The index has, for each section, the set of its lines. */
  ghost predicate IndexOk(sections: seq<Section>, index: LineIndex) {
    && DistinctTitles(sections)
    && (forall i :: 0 <= i < |sections| ==>
        sections[i].title in index && index[sections[i].title] == LinesOf(sections[i]))
    && (forall t :: t in index ==> HasTitle(sections, t))
  }

  ghost predicate HasTitle(sections: seq<Section>, title: nat) {
    exists i :: 0 <= i < |sections| && sections[i].title == title
  }

  function SectionLineIndex(sections: seq<Section>): LineIndex {
    if sections == [] then map[]
    else
      var last := sections[|sections| - 1];
      SectionLineIndex(sections[..|sections| - 1])[last.title := LinesOf(last)]
  }

  lemma {:induction false} IndexBuilt(sections: seq<Section>)
    requires DistinctTitles(sections)
    ensures IndexOk(sections, SectionLineIndex(sections))
  {
    if sections != [] {
      var front, last := sections[..|sections| - 1], sections[|sections| - 1];
      IndexBuilt(front);
      forall t | t in SectionLineIndex(sections) ensures HasTitle(sections, t) {
        if t != last.title {
          assert HasTitle(front, t);
          var i :| 0 <= i < |front| && front[i].title == t;
          assert sections[i].title == t;
        }
      }
    }
  }

  function PositionOf(sections: seq<Section>, title: nat): Option<nat> {
    if sections == [] then None
    else if sections[|sections| - 1].title == title then Some(|sections| - 1)
    else PositionOf(sections[..|sections| - 1], title)
  }

  lemma {:induction false} PositionIs(sections: seq<Section>, title: nat)
    ensures PositionOf(sections, title).None? <==> forall i :: 0 <= i < |sections| ==> sections[i].title != title
    ensures PositionOf(sections, title).Some? ==>
      PositionOf(sections, title).value < |sections| && sections[PositionOf(sections, title).value].title == title
  {
    if sections != [] { PositionIs(sections[..|sections| - 1], title); }
  }

  /** Lines that are not known yet, each once. */
  function NewLines(known: set<nat>, lines: seq<nat>): seq<nat>
    decreases |lines|
  {
    if lines == [] then []
    else if lines[0] in known then NewLines(known, lines[1..])
    else [lines[0]] + NewLines(known + {lines[0]}, lines[1..])
  }

  lemma {:induction false} NewLinesAre(known: set<nat>, lines: seq<nat>)
    decreases |lines|
    ensures Distinct(NewLines(known, lines))
    ensures forall x :: x in NewLines(known, lines) <==> x in lines && x !in known
  {
    if lines != [] {
      NewLinesAre(if lines[0] in known then known else known + {lines[0]}, lines[1..]);
      assert lines == [lines[0]] + lines[1..];
    }
  }

  function MergeSection(sections: seq<Section>, index: LineIndex, s: Section): (seq<Section>, LineIndex) {
    var p := PositionOf(sections, s.title);
    if p.None? then (sections + [s], index[s.title := LinesOf(s)])
    else if p.value < |sections| && s.title in index then
      (sections[p.value := Section(s.title, sections[p.value].lines + NewLines(index[s.title], s.lines))],
       index[s.title := index[s.title] + LinesOf(s)])
    else (sections, index)
  }

  function MergeSections(sections: seq<Section>, index: LineIndex, more: seq<Section>): (seq<Section>, LineIndex)
    decreases |more|
  {
    if more == [] then (sections, index)
    else
      var (s1, i1) := MergeSection(sections, index, more[0]);
      MergeSections(s1, i1, more[1..])
  }

  /** Appending new lines keeps the old ones first and makes the set of lines the union. */
  lemma MergedLines(s: Section, lines: seq<nat>, title: nat)
    ensures LinesOf(Section(title, s.lines + NewLines(LinesOf(s), lines))) ==
      LinesOf(s) + LinesOf(Section(title, lines))
  {
    NewLinesAre(LinesOf(s), lines);
    var all := Section(title, s.lines + NewLines(LinesOf(s), lines));
    forall x | x in LinesOf(s) + LinesOf(Section(title, lines)) ensures x in LinesOf(all) {
      if x in LinesOf(s) {
        var k :| 0 <= k < |s.lines| && s.lines[k] == x;
        assert all.lines[k] == x;
      } else {
        assert x in NewLines(LinesOf(s), lines);
        var k :| 0 <= k < |NewLines(LinesOf(s), lines)| && NewLines(LinesOf(s), lines)[k] == x;
        assert all.lines[|s.lines| + k] == x;
      }
    }
    forall x | x in LinesOf(all) ensures x in LinesOf(s) + LinesOf(Section(title, lines)) {
      var k :| 0 <= k < |all.lines| && all.lines[k] == x;
      if k >= |s.lines| {
        assert x in NewLines(LinesOf(s), lines);
        var m :| 0 <= m < |lines| && lines[m] == x;
      }
    }
  }

  lemma MergeSectionOk(sections: seq<Section>, index: LineIndex, s: Section)
    requires IndexOk(sections, index)
    ensures var (s1, i1) := MergeSection(sections, index, s); IndexOk(s1, i1)
  {
    var p := PositionOf(sections, s.title);
    PositionIs(sections, s.title);
    var (s1, i1) := MergeSection(sections, index, s);
    if p.None? {
      assert s1[|sections|] == s && !HasTitle(sections, s.title);
    } else {
      MergedLines(sections[p.value], s.lines, s.title);
    }
    forall t | t in i1 ensures HasTitle(s1, t) {
      if t in index {
        assert HasTitle(sections, t);
        var i :| 0 <= i < |sections| && sections[i].title == t;
        assert s1[i].title == t;
      }
    }
  }

  lemma {:induction false} MergeSectionsOk(sections: seq<Section>, index: LineIndex, more: seq<Section>)
    requires IndexOk(sections, index)
    ensures var (s1, i1) := MergeSections(sections, index, more); IndexOk(s1, i1)
    decreases |more|
  {
    if more != [] {
      MergeSectionOk(sections, index, more[0]);
      var (s1, i1) := MergeSection(sections, index, more[0]);
      MergeSectionsOk(s1, i1, more[1..]);
    }
  }

  /** Sections stay where they are and only get lines appended; new ones go behind. */
  ghost predicate Grown(before: seq<Section>, after: seq<Section>) {
    && |before| <= |after|
    && forall i :: 0 <= i < |before| ==> after[i].title == before[i].title && before[i].lines <= after[i].lines
  }

  ghost predicate Contains(sections: seq<Section>, s: Section) {
    exists i :: 0 <= i < |sections| && sections[i].title == s.title && LinesOf(s) <= LinesOf(sections[i])
  }

  lemma StillContains(before: seq<Section>, after: seq<Section>, s: Section)
    requires Grown(before, after) && Contains(before, s)
    ensures Contains(after, s)
  {
    var i :| 0 <= i < |before| && before[i].title == s.title && LinesOf(s) <= LinesOf(before[i]);
    forall x | x in LinesOf(before[i]) ensures x in LinesOf(after[i]) {
      var k :| 0 <= k < |before[i].lines| && before[i].lines[k] == x;
      assert after[i].lines[k] == x;
    }
  }

  lemma MergeSectionGrows(sections: seq<Section>, index: LineIndex, s: Section)
    requires IndexOk(sections, index)
    ensures var s1 := MergeSection(sections, index, s).0; Grown(sections, s1) && Contains(s1, s)
  {
    var p := PositionOf(sections, s.title);
    PositionIs(sections, s.title);
    var s1 := MergeSection(sections, index, s).0;
    if p.None? {
      assert s1[|sections|] == s;
    } else {
      MergedLines(sections[p.value], s.lines, s.title);
      assert s1[p.value].title == s.title;
    }
  }

  lemma GrownTransitive(a: seq<Section>, b: seq<Section>, c: seq<Section>)
    requires Grown(a, b) && Grown(b, c)
    ensures Grown(a, c)
  {
  }

  ghost predicate ContainsAll(sections: seq<Section>, more: seq<Section>) {
    forall j :: 0 <= j < |more| ==> Contains(sections, more[j])
  }

  lemma ContainsOneMore(sections: seq<Section>, more: seq<Section>)
    requires more != [] && Contains(sections, more[0]) && ContainsAll(sections, more[1..])
    ensures ContainsAll(sections, more)
  {
    forall j | 0 < j < |more| ensures Contains(sections, more[j]) { assert more[j] == more[1..][j - 1]; }
  }

  /** No line is lost or moved in a merge, and every line of the new sections is there under its title. */
  lemma {:induction false} MergeSectionsGrow(sections: seq<Section>, index: LineIndex, more: seq<Section>)
    requires IndexOk(sections, index)
    ensures var s1 := MergeSections(sections, index, more).0; Grown(sections, s1) && ContainsAll(s1, more)
    decreases |more|
  {
    if more != [] {
      var (s1, i1) := MergeSection(sections, index, more[0]);
      MergeSectionOk(sections, index, more[0]);
      MergeSectionGrows(sections, index, more[0]);
      MergeSectionsGrow(s1, i1, more[1..]);
      var s2 := MergeSections(s1, i1, more[1..]).0;
      StillContains(s1, s2, more[0]);
      GrownTransitive(sections, s1, s2);
      ContainsOneMore(s2, more);
    }
  }

  // ---------------------------------------------------------------- activities

  function IndexOfKey(activities: seq<Activity>, key: nat): Option<nat> {
    if activities == [] then None
    else if activities[|activities| - 1].key == key then Some(|activities| - 1)
    else IndexOfKey(activities[..|activities| - 1], key)
  }

  lemma {:induction false} IndexOfKeyIs(activities: seq<Activity>, key: nat)
    ensures IndexOfKey(activities, key).None? <==> forall i :: 0 <= i < |activities| ==> activities[i].key != key
    ensures IndexOfKey(activities, key).Some? ==>
      IndexOfKey(activities, key).value < |activities| && activities[IndexOfKey(activities, key).value].key == key
  {
    if activities != [] { IndexOfKeyIs(activities[..|activities| - 1], key); }
  }

  function Settled(a: Activity, status: Status, except: Option<nat>): Activity {
    if a.status.Running? && except != Some(a.key) then a.(status := status) else a
  }

  function FinalizeRunning(activities: seq<Activity>, status: Status, except: Option<nat>): seq<Activity> {
    seq(|activities|, i requires 0 <= i < |activities| => Settled(activities[i], status, except))
  }

  /** What an accepted log does to the activities before it takes its own place. */
  function FinalizeFor(activities: seq<Activity>, log: Log): seq<Activity> {
    var existing := IndexOfKey(activities, log.key);
    if log.ends.Some? then FinalizeRunning(activities, log.ends.value, None)
    else
      match log.status
      case Running =>
        var spared := existing.Some? && existing.value < |activities| && activities[existing.value].status.Running?;
        FinalizeRunning(activities, Done, if spared then Some(log.key) else None)
      case Waiting => FinalizeRunning(activities, Done, None)
      case Failed => FinalizeRunning(activities, Failed, None)
      case Cancelled => FinalizeRunning(activities, Cancelled, None)
      case _ => activities
  }

  function Without(activities: seq<Activity>, i: Option<nat>): seq<Activity> {
    if i.Some? && i.value < |activities| then activities[..i.value] + activities[i.value + 1..] else activities
  }

  /** `accepted` is history: the logs taken in so far. */
  datatype State = State(activities: seq<Activity>, lines: map<nat, LineIndex>, seen: set<nat>,
                         terminal: Option<Status>, accepted: seq<Log>)

  const EMPTY: State := State([], map[], {}, None, [])

  predicate Accepts(st: State, log: Log) {
    log.id !in st.seen && log.titled && (st.terminal.None? || log.ends.Some?)
  }

  function Placed(st: State, log: Log): (Activity, LineIndex) {
    var existing := IndexOfKey(st.activities, log.key);
    if existing.Some? && existing.value < |st.activities| && log.key in st.lines then
      var e := st.activities[existing.value];
      var (sections, index) := MergeSections(e.sections, st.lines[log.key], log.sections);
      (Activity(log.key, log, log.status, e.repeat + 1, sections, |st.accepted|), index)
    else (Activity(log.key, log, log.status, 1, log.sections, |st.accepted|), SectionLineIndex(log.sections))
  }

  function Take(st: State, log: Log): State {
    var (activity, index) := Placed(st, log);
    State(Without(FinalizeFor(st.activities, log), IndexOfKey(st.activities, log.key)) + [activity],
          st.lines[log.key := index], st.seen + {log.id},
          if log.ends.Some? then log.ends else st.terminal, st.accepted + [log])
  }

  function Step(st: State, log: Log): State {
    if Accepts(st, log) then Take(st, log) else st.(seen := st.seen + {log.id})
  }

  function Fold(logs: seq<Log>): State {
    if logs == [] then EMPTY else Step(Fold(logs[..|logs| - 1]), logs[|logs| - 1])
  }

  /** JavaScript's `slice(-limit)`: a limit of zero keeps everything, a negative one drops from the front. */
  function SliceFromEnd<T>(s: seq<T>, limit: int): seq<T> {
    if limit > 0 then s[|s| - Min(limit, |s|)..] else s[Min(-limit, |s|)..]
  }

  // ---------------------------------------------------------------- the loop

  method FinalizeRunningActivities(activities: seq<Activity>, status: Status, except: Option<nat>)
    returns (settled: seq<Activity>)
    ensures settled == FinalizeRunning(activities, status, except)
  {
    settled := activities;
    for i := 0 to |activities|
      invariant |settled| == |activities|
      invariant forall k :: 0 <= k < i ==> settled[k] == Settled(activities[k], status, except)
      invariant forall k :: i <= k < |activities| ==> settled[k] == activities[k]
    {
      if settled[i].status.Running? && except != Some(settled[i].key) {
        settled := settled[i := settled[i].(status := status)];
      }
    }
  }

  method MergeInto(left: seq<Section>, right: seq<Section>, index: LineIndex)
    returns (sections: seq<Section>, known: LineIndex)
    ensures (sections, known) == MergeSections(left, index, right)
  {
    sections, known := left, index;
    for i := 0 to |right|
      invariant MergeSections(left, index, right) == MergeSections(sections, known, right[i..])
    {
      assert right[i..][0] == right[i] && right[i..][1..] == right[i + 1..];
      var (s1, i1) := MergeSection(sections, known, right[i]);
      sections, known := s1, i1;
    }
  }

  method TimelineActivities(logs: seq<Log>, limit: int) returns (timeline: seq<Activity>)
    ensures timeline == Reversed(SliceFromEnd(Fold(logs).activities, limit))
  {
    var activities: seq<Activity> := [];
    var lines: map<nat, LineIndex> := map[];
    var seen: set<nat> := {};
    var terminal: Option<Status> := None;
    ghost var accepted: seq<Log> := [];
    var taken := 0;
    for i := 0 to |logs|
      invariant State(activities, lines, seen, terminal, accepted) == Fold(logs[..i]) && taken == |accepted|
    {
      assert logs[..i + 1][..i] == logs[..i];
      var log := logs[i];
      ghost var st := State(activities, lines, seen, terminal, accepted);
      if log.id !in seen {
        seen := seen + {log.id};
        if log.titled && (terminal.None? || log.ends.Some?) {
          if log.ends.Some? {
            terminal := log.ends;
          }
          activities, lines := TakeLog(activities, lines, log, taken, st);
          accepted := accepted + [log];
          taken := taken + 1;
        }
      }
    }
    assert logs[..|logs|] == logs;
    timeline := Reversed(SliceFromEnd(activities, limit));
  }

  method TakeLog(activities: seq<Activity>, lines: map<nat, LineIndex>, log: Log, at: nat, ghost st: State)
    returns (next: seq<Activity>, index: map<nat, LineIndex>)
    requires st.activities == activities && st.lines == lines && |st.accepted| == at
    ensures next == Take(st, log).activities && index == Take(st, log).lines
  {
    var existing := IndexOfKey(activities, log.key);
    IndexOfKeyIs(activities, log.key);
    next := activities;
    if log.ends.Some? {
      next := FinalizeRunningActivities(next, log.ends.value, None);
    } else if log.status.Running? {
      next := FinalizeRunningActivities(next, Done, if existing.Some? && activities[existing.value].status.Running?
                                                    then Some(log.key) else None);
    } else if log.status.Waiting? {
      next := FinalizeRunningActivities(next, Done, None);
    } else if log.status.Failed? {
      next := FinalizeRunningActivities(next, Failed, None);
    } else if log.status.Cancelled? {
      next := FinalizeRunningActivities(next, Cancelled, None);
    }
    if existing.Some? && log.key in lines {
      var e := activities[existing.value];
      var sections, known := MergeInto(e.sections, log.sections, lines[log.key]);
      next := next[..existing.value] + next[existing.value + 1..];
      next := next + [Activity(log.key, log, log.status, e.repeat + 1, sections, at)];
      index := lines[log.key := known];
    } else {
      next := Without(next, existing) + [Activity(log.key, log, log.status, 1, log.sections, at)];
      index := lines[log.key := SectionLineIndex(log.sections)];
    }
  }

  // ---------------------------------------------------------------- what taking a log in does

  /** Where the `j`-th of the others stood before the activity of the log's key was taken out. */
  function Source(existing: Option<nat>, j: nat): nat { if existing.Some? && existing.value <= j then j + 1 else j }

  /** What becomes of an activity left running when the log comes in. */
  function Outcome(log: Log): Status {
    if log.ends.Some? then log.ends.value
    else
      match log.status
      case Running => Done
      case Waiting => Done
      case Failed => Failed
      case Cancelled => Cancelled
      case _ => Running
  }

  predicate Stirs(log: Log) { log.ends.Some? || !(log.status.Done? || log.status.Neutral?) }

  lemma FinalizeShape(activities: seq<Activity>, log: Log, k: nat)
    requires k < |activities|
    ensures |FinalizeFor(activities, log)| == |activities|
    ensures var b := FinalizeFor(activities, log)[k];
      && b == activities[k].(status := b.status)
      && (b.status.Running? ==> activities[k].status.Running?)
      && (Stirs(log) && activities[k].key != log.key && (log.ends.Some? ==> !log.ends.value.Running?) ==>
          !b.status.Running?)
      && (!Stirs(log) ==> b == activities[k])
      && (activities[k].key != log.key ==> b.status == if activities[k].status.Running? then Outcome(log)
                                                       else activities[k].status)
  {
  }

  ghost predicate KeysOk(activities: seq<Activity>) {
    forall i, j :: 0 <= i < j < |activities| ==> activities[i].key != activities[j].key
  }

  /** Lifecycle states stand for terminal statuses. */
  predicate Classified(log: Log) {
    && (log.ends.Some? ==> log.ends.value.Done? || log.ends.value.Failed? || log.ends.value.Cancelled?)
    && DistinctTitles(log.sections)
  }

  /** The other activities stay in order, with nothing but their status changed; the log's own comes last. */
  ghost predicate TookPlace(before: seq<Activity>, after: seq<Activity>, log: Log, own: Activity) {
    var existing := IndexOfKey(before, log.key);
    var n := if existing.Some? then |before| - 1 else |before|;
    && 0 <= n && |after| == n + 1 && after[n] == own
    && forall j :: 0 <= j < n ==> Source(existing, j) < |before| && Kept(before[Source(existing, j)], after[j], log)
  }

  ghost predicate Kept(a: Activity, b: Activity, log: Log) {
    && b == a.(status := if a.status.Running? then Outcome(log) else a.status) && a.key != log.key
    && (b.status.Running? ==> a.status.Running? && !Stirs(log))
    && (!Stirs(log) ==> b == a)
  }

  lemma TakeShape(st: State, log: Log)
    requires KeysOk(st.activities) && Classified(log)
    ensures TookPlace(st.activities, Take(st, log).activities, log, Placed(st, log).0)
  {
    var before := st.activities;
    var existing := IndexOfKey(before, log.key);
    var f := FinalizeFor(before, log);
    IndexOfKeyIs(before, log.key);
    var n := if existing.Some? then |before| - 1 else |before|;
    if |before| > 0 { FinalizeShape(before, log, 0); }
    var w := Without(f, existing);
    assert |w| == n;
    forall j | 0 <= j < n
      ensures Source(existing, j) < |before| && Kept(before[Source(existing, j)], (w + [Placed(st, log).0])[j], log)
    {
      var k := Source(existing, j);
      FinalizeShape(before, log, k);
      assert w[j] == f[k];
      assert before[k].key != log.key;
    }
  }

  /** An activity of another key stands somewhere among the others. */
  lemma StillThere(before: seq<Activity>, after: seq<Activity>, log: Log, own: Activity, k: nat) returns (j: nat)
    requires TookPlace(before, after, log, own) && k < |before| && before[k].key != log.key
    ensures j < |after| - 1 && Source(IndexOfKey(before, log.key), j) == k && Kept(before[k], after[j], log)
  {
    IndexOfKeyIs(before, log.key);
    var existing := IndexOfKey(before, log.key);
    j := if existing.Some? && existing.value < k then k - 1 else k;
    assert Source(existing, j) == k;
  }

  // ---------------------------------------------------------------- places

  /** The activity stands for the last accepted log of its key. */
  ghost predicate PlaceOk(a: Activity, accepted: seq<Log>) {
    && a.at < |accepted| && accepted[a.at] == a.log && a.key == a.log.key
    && forall m :: a.at < m < |accepted| ==> accepted[m].key != a.key
  }

  /** Activities are in the order of their last accepted logs, and the last of them is that of the last log. */
  ghost predicate PlacesOk(st: State) {
    && (forall k :: 0 <= k < |st.activities| ==> PlaceOk(st.activities[k], st.accepted))
    && (forall k, l :: 0 <= k < l < |st.activities| ==> st.activities[k].at < st.activities[l].at)
    && (st.accepted != [] ==> st.activities != [] && LastIsOwn(st.activities[|st.activities| - 1], st.accepted))
  }

  ghost predicate LastIsOwn(a: Activity, accepted: seq<Log>) { a.at == |accepted| - 1 && a.status == a.log.status }

  lemma PlacesKept(st: State, log: Log)
    requires KeysOk(st.activities) && Classified(log) && PlacesOk(st)
    ensures PlacesOk(Take(st, log))
  {
    TakeShape(st, log);
    var after := Take(st, log);
    var existing := IndexOfKey(st.activities, log.key);
    var n := |after.activities| - 1;
    forall k | 0 <= k < n
      ensures PlaceOk(after.activities[k], after.accepted) && after.activities[k].at < |st.accepted|
    {
      assert Kept(st.activities[Source(existing, k)], after.activities[k], log);
      assert PlaceOk(st.activities[Source(existing, k)], st.accepted);
    }
    forall k, l | 0 <= k < l < |after.activities| ensures after.activities[k].at < after.activities[l].at {
      assert Kept(st.activities[Source(existing, k)], after.activities[k], log);
      if l < n { assert Kept(st.activities[Source(existing, l)], after.activities[l], log); }
    }
  }

  // ---------------------------------------------------------------- counts

  function CountOf(accepted: seq<Log>, key: nat): nat {
    if accepted == [] then 0
    else CountOf(accepted[..|accepted| - 1], key) + if accepted[|accepted| - 1].key == key then 1 else 0
  }

  ghost predicate CountsOk(st: State) {
    && (forall k :: 0 <= k < |st.activities| ==> st.activities[k].repeat == CountOf(st.accepted, st.activities[k].key))
    && (forall key :: CountOf(st.accepted, key) > 0 ==> HasKey(st.activities, key))
  }

  ghost predicate HasKey(activities: seq<Activity>, key: nat) {
    exists k :: 0 <= k < |activities| && activities[k].key == key
  }

  function TotalRepeats(activities: seq<Activity>): nat {
    if activities == [] then 0 else TotalRepeats(activities[..|activities| - 1]) + activities[|activities| - 1].repeat
  }

  lemma {:induction false} TotalOfSum(a: seq<Activity>, b: seq<Activity>)
    ensures TotalRepeats(a + b) == TotalRepeats(a) + TotalRepeats(b)
    decreases |b|
  {
    if b == [] {
      assert a + b == a;
    } else {
      assert (a + b)[..|a + b| - 1] == a + b[..|b| - 1];
      TotalOfSum(a, b[..|b| - 1]);
    }
  }

  lemma {:induction false} TotalSame(a: seq<Activity>, b: seq<Activity>)
    requires |a| == |b| && forall k :: 0 <= k < |a| ==> a[k].repeat == b[k].repeat
    ensures TotalRepeats(a) == TotalRepeats(b)
  {
    if a != [] { TotalSame(a[..|a| - 1], b[..|b| - 1]); }
  }

  lemma TotalOne(a: Activity)
    ensures TotalRepeats([a]) == a.repeat
  {
    assert [a][..0] == [];
  }

  lemma TotalWithout(front: seq<Activity>, a: Activity, rest: seq<Activity>)
    ensures TotalRepeats(front + rest) == TotalRepeats(front + [a] + rest) - a.repeat
  {
    TotalOfSum(front, rest);
    TotalOfSum(front + [a], rest);
    TotalOfSum(front, [a]);
    TotalOne(a);
  }

  lemma FinalizedTotal(activities: seq<Activity>, log: Log)
    ensures |FinalizeFor(activities, log)| == |activities|
    ensures TotalRepeats(FinalizeFor(activities, log)) == TotalRepeats(activities)
  {
    var f := FinalizeFor(activities, log);
    if activities == [] {
      assert f == [];
    } else {
      forall k | 0 <= k < |activities|
        ensures |f| == |activities| && f[k].repeat == activities[k].repeat
      {
        FinalizeShape(activities, log, k);
      }
      TotalSame(activities, f);
    }
  }

  lemma TotalReplaced(f: seq<Activity>, i: nat, own: Activity)
    requires i < |f|
    ensures TotalRepeats(f[..i] + f[i + 1..] + [own]) == TotalRepeats(f) - f[i].repeat + own.repeat
  {
    assert f == f[..i] + [f[i]] + f[i + 1..];
    TotalWithout(f[..i], f[i], f[i + 1..]);
    TotalOfSum(f[..i] + f[i + 1..], [own]);
    TotalOne(own);
  }

  /** One more accepted log is one more repeat. */
  lemma TotalKept(st: State, log: Log)
    requires forall k :: 0 <= k < |st.activities| ==> st.activities[k].key in st.lines
    ensures TotalRepeats(Take(st, log).activities) == TotalRepeats(st.activities) + 1
  {
    var existing := IndexOfKey(st.activities, log.key);
    var own := Placed(st, log).0;
    var f := FinalizeFor(st.activities, log);
    IndexOfKeyIs(st.activities, log.key);
    FinalizedTotal(st.activities, log);
    if existing.Some? {
      FinalizeShape(st.activities, log, existing.value);
      TotalReplaced(f, existing.value, own);
    } else {
      TotalOfSum(f, [own]);
      TotalOne(own);
    }
  }

  lemma CountsKept(st: State, log: Log)
    requires KeysOk(st.activities) && Classified(log) && CountsOk(st) && forall k :: 0 <= k < |st.activities| ==>
      st.activities[k].key in st.lines
    ensures CountsOk(Take(st, log))
  {
    TakeShape(st, log);
    var after := Take(st, log);
    var existing := IndexOfKey(st.activities, log.key);
    IndexOfKeyIs(st.activities, log.key);
    assert after.accepted[..|st.accepted|] == st.accepted;
    var n := |after.activities| - 1;
    forall k | 0 <= k < |after.activities|
      ensures after.activities[k].repeat == CountOf(after.accepted, after.activities[k].key)
    {
      if k < n {
        assert Kept(st.activities[Source(existing, k)], after.activities[k], log);
      } else if existing.None? {
        assert !HasKey(st.activities, log.key);
      }
    }
    forall key | CountOf(after.accepted, key) > 0 ensures HasKey(after.activities, key) {
      if key == log.key {
        assert after.activities[n].key == key;
      } else {
        assert HasKey(st.activities, key);
        var k :| 0 <= k < |st.activities| && st.activities[k].key == key;
        var j := StillThere(st.activities, after.activities, log, Placed(st, log).0, k);
        assert after.activities[j].key == key;
      }
    }
  }

  // ---------------------------------------------------------------- section indexes

  ghost predicate LinesOk(st: State) {
    forall k :: 0 <= k < |st.activities| ==>
      st.activities[k].key in st.lines && IndexOk(st.activities[k].sections, st.lines[st.activities[k].key])
  }

  lemma LinesKept(st: State, log: Log)
    requires KeysOk(st.activities) && Classified(log) && LinesOk(st)
    ensures LinesOk(Take(st, log))
  {
    TakeShape(st, log);
    var after := Take(st, log);
    var existing := IndexOfKey(st.activities, log.key);
    IndexOfKeyIs(st.activities, log.key);
    if existing.Some? {
      MergeSectionsOk(st.activities[existing.value].sections, st.lines[log.key], log.sections);
    } else {
      IndexBuilt(log.sections);
    }
    forall k | 0 <= k < |after.activities|
      ensures after.activities[k].key in after.lines
      ensures IndexOk(after.activities[k].sections, after.lines[after.activities[k].key])
    {
      if k < |after.activities| - 1 { assert Kept(st.activities[Source(existing, k)], after.activities[k], log); }
    }
  }

  // ---------------------------------------------------------------- running activities

  ghost predicate RunningOk(st: State) {
    && (forall i, j :: 0 <= i < j < |st.activities| ==>
        !(st.activities[i].status.Running? && st.activities[j].status.Running?))
    && (st.terminal.Some? ==>
          && st.accepted != [] && st.accepted[|st.accepted| - 1].ends.Some?
          && forall i :: 0 <= i < |st.activities| - 1 ==> !st.activities[i].status.Running?)
  }

  lemma OthersRun(st: State, log: Log, i: nat)
    requires KeysOk(st.activities) && Classified(log) && i < |Take(st, log).activities| - 1
    ensures var k := Source(IndexOfKey(st.activities, log.key), i);
      k < |st.activities| &&
          (Take(st, log).activities[i].status.Running? ==> st.activities[k].status.Running? && !Stirs(log))
  {
    TakeShape(st, log);
    assert Kept(st.activities[Source(IndexOfKey(st.activities, log.key), i)], Take(st, log).activities[i], log);
  }

  lemma RunningKept(st: State, log: Log)
    requires KeysOk(st.activities) && Classified(log) && RunningOk(st) && Accepts(st, log)
    ensures RunningOk(Take(st, log))
  {
    var after := Take(st, log).activities;
    var n := |after| - 1;
    assert after[n] == Placed(st, log).0;
    forall i, j | 0 <= i < j <= n ensures !(after[i].status.Running? && after[j].status.Running?) {
      OthersRun(st, log, i);
      if j < n { OthersRun(st, log, j); }
    }
    if log.ends.Some? {
      forall i | 0 <= i < n ensures !after[i].status.Running? { OthersRun(st, log, i); }
    }
  }

  // ---------------------------------------------------------------- the timeline of any logs

  ghost predicate StateOk(st: State) {
    KeysOk(st.activities) && PlacesOk(st) && CountsOk(st) && LinesOk(st) && RunningOk(st)
    && TotalRepeats(st.activities) == |st.accepted|
  }

  lemma KeysKept(st: State, log: Log)
    requires KeysOk(st.activities) && Classified(log)
    ensures KeysOk(Take(st, log).activities)
  {
    TakeShape(st, log);
  }

  lemma TakeKeeps(st: State, log: Log)
    requires StateOk(st) && Classified(log) && Accepts(st, log)
    ensures StateOk(Take(st, log))
  {
    KeysKept(st, log);
    PlacesKept(st, log);
    CountsKept(st, log);
    LinesKept(st, log);
    RunningKept(st, log);
    TotalKept(st, log);
  }

  /**
   * After any logs: keys are unique, activities are ordered by their last accepted logs, repeat counts are those of
   * the accepted logs, section indexes are the sets of lines, and at most one activity is running.
   */
  lemma {:induction false} FoldOk(logs: seq<Log>)
    requires forall i :: 0 <= i < |logs| ==> Classified(logs[i])
    ensures StateOk(Fold(logs))
  {
    if logs != [] {
      var front, log := logs[..|logs| - 1], logs[|logs| - 1];
      FoldOk(front);
      StepOk(Fold(front), log);
    }
  }

  lemma StepOk(st: State, log: Log)
    requires StateOk(st) && Classified(log)
    ensures StateOk(Step(st, log))
  {
    if Accepts(st, log) { TakeKeeps(st, log); } else { SeenKeeps(st, log.id); }
  }

  lemma SeenKeeps(st: State, id: nat)
    requires StateOk(st)
    ensures StateOk(st.(seen := st.seen + {id}))
  {
  }

  ghost predicate AnyRunning(activities: seq<Activity>) {
    exists i :: 0 <= i < |activities| && activities[i].status.Running?
  }

  /**
   * Once a terminal lifecycle log has been accepted, no activity is running exactly if the last accepted log is not
   * itself presented as running.
   */
  lemma TerminalIff(logs: seq<Log>)
    requires forall i :: 0 <= i < |logs| ==> Classified(logs[i])
    requires Fold(logs).terminal.Some?
    ensures var st := Fold(logs);
      st.accepted != [] && (!AnyRunning(st.activities) <==> !st.accepted[|st.accepted| - 1].status.Running?)
  {
    FoldOk(logs);
    var st := Fold(logs);
    var last := st.activities[|st.activities| - 1];
    assert PlaceOk(last, st.accepted) && LastIsOwn(last, st.accepted);
  }

  /** Accepted logs have ids of their own, all of them seen. */
  ghost predicate AcceptedOk(st: State) {
    && (forall i :: 0 <= i < |st.accepted| ==> st.accepted[i].id in st.seen)
    && (forall i, j :: 0 <= i < j < |st.accepted| ==> st.accepted[i].id != st.accepted[j].id)
  }

  lemma StepAccepted(st: State, log: Log)
    requires AcceptedOk(st)
    ensures AcceptedOk(Step(st, log))
  {
    if Accepts(st, log) { assert Take(st, log).accepted == st.accepted + [log]; }
  }

  /** So the repeat counts add up to the number of distinct logs taken in. */
  lemma {:induction false} AcceptedDistinct(logs: seq<Log>)
    ensures AcceptedOk(Fold(logs))
  {
    if logs != [] {
      AcceptedDistinct(logs[..|logs| - 1]);
      StepAccepted(Fold(logs[..|logs| - 1]), logs[|logs| - 1]);
    }
  }

  // ---------------------------------------------------------------- running after the end

  ghost predicate AllFrom(logs: seq<Log>, source: set<Log>) { forall i :: 0 <= i < |logs| ==> logs[i] in source }

  /** Only logs of the input that have a title are taken in. */
  lemma {:induction false} AcceptedFrom(logs: seq<Log>, source: set<Log>)
    requires AllFrom(logs, source)
    ensures AllFrom(Fold(logs).accepted, source)
    ensures forall i :: 0 <= i < |Fold(logs).accepted| ==> Fold(logs).accepted[i].titled
  {
    if logs != [] {
      AcceptedFrom(logs[..|logs| - 1], source);
      assert logs[|logs| - 1] in source;
    }
  }

  ghost predicate RunsOn(logs: seq<Log>) { Fold(logs).terminal.Some? && AnyRunning(Fold(logs).activities) }

  /** A log that ends its session and is itself presented as running. */
  predicate EndsRunning(log: Log) { log.titled && log.ends.Some? && log.status.Running? }

  lemma EndingLogRunsOn(log: Log)
    requires EndsRunning(log)
    ensures RunsOn([log])
  {
    assert [log][..0] == [];
    assert Fold([log]) == Step(EMPTY, log) == Take(EMPTY, log);
    assert Take(EMPTY, log).activities[0].status.Running?;
  }

  lemma RunsOnOnlyIf(logs: seq<Log>, source: set<Log>)
    requires (forall l :: l in source ==> Classified(l)) && AllFrom(logs, source) && RunsOn(logs)
    ensures exists l :: l in source && EndsRunning(l)
  {
    TerminalIff(logs);
    AcceptedFrom(logs, source);
    FoldOk(logs);
    var accepted := Fold(logs).accepted;
    assert accepted[|accepted| - 1] in source && EndsRunning(accepted[|accepted| - 1]);
  }

  /**
   * Whatever logs arrive from a source, in whatever order, no timeline shows a running activity after the end,
   * exactly if no log of the source that ends the session is presented as running.
   */
  lemma NeverRunsOnIff(source: set<Log>)
    requires forall l :: l in source ==> Classified(l)
    ensures (forall logs :: AllFrom(logs, source) ==> !RunsOn(logs)) <==> (forall l :: l in source ==> !EndsRunning(l))
  {
    forall logs | AllFrom(logs, source) && RunsOn(logs) ensures exists l :: l in source && EndsRunning(l) {
      RunsOnOnlyIf(logs, source);
    }
    forall l | l in source && EndsRunning(l) ensures AllFrom([l], source) && RunsOn([l]) {
      EndingLogRunsOn(l);
    }
  }
}
