/**
 * What a log's text says (src/lib/agentTimeline.ts): its headings, its summary, the lifecycle state it names, and the
 * presentation that follows. The matching of one line is a parameter: each line comes with what it is found to say.
 */
module LifecycleLogs {
  import opened Prelude
  import T = Timeline

  datatype Lifecycle = Queued | Running | Committing | Cancelling | Succeeded | Blocked | Failed | Cancelled | Unknown

  datatype Heading = StatusHead | SummaryHead | EvidenceHead | DetailsHead | NextHead | NoHead

  /**
   * One line of a message. `raw` is the line, `words` what is left of it (of its value, under a heading) once cleaned,
   * if anything, `useful` whether cleaning that again leaves something, and `entered` the state that a match of
   * "entered <state>" finds in it.
   */
  datatype Line = Line(heading: Heading, raw: Option<nat>, words: Option<nat>, useful: bool, entered: Option<Lifecycle>)

  datatype Presentation = Presentation(titled: bool, key: nat, status: T.Status)

  /** For the other labels, what they are presented as is given. */
  datatype Label = LifecycleLabel | OtherLabel(shown: Presentation)

  datatype Message = Message(id: nat, kind: Label, error: bool, caption: nat, lines: seq<Line>)

  const QUEUED: nat := 0
  const AGENT_STARTED: nat := 1
  const SAVING_RESULTS: nat := 2
  const COMPLETED: nat := 3
  const ATTENTION: nat := 4
  const CANCELLED: nat := 5
  const CANCELLING: nat := 6
  const EXECUTING_TASK: nat := 7

  const EVIDENCE: nat := 0
  const DETAILS: nat := 1
  const FOLLOW_UP: nat := 2
  const RAW_EVENT: nat := 3

  // ---------------------------------------------------------------- parsing

  /** Nothing is found in a line of which nothing is left. */
  predicate LineOk(line: Line) {
    (line.words.None? ==> !line.useful) && (line.heading.NoHead? && !line.useful ==> line.entered.None?)
  }

  predicate TextOk(lines: seq<Line>) { forall i :: 0 <= i < |lines| ==> LineOk(lines[i]) }

  /** The section plain lines belong to from here on. */
  function SectionAfter(section: Heading, line: Line): Heading {
    if line.heading.EvidenceHead? || line.heading.DetailsHead? || line.heading.NextHead? then line.heading else section
  }

  /** What is left of the plain lines of one section, in order; NoHead is the part before any section. */
  function PlainLines(lines: seq<Line>, wanted: Heading, section: Heading): seq<Line> {
    if lines == [] then []
    else
      var rest := PlainLines(lines[1..], wanted, SectionAfter(section, lines[0]));
      if lines[0].heading.NoHead? && lines[0].words.Some? && section == wanted then [lines[0]] + rest else rest
  }

  /** The last summary heading counts, and an empty one takes the summary back. */
  function SummaryLine(lines: seq<Line>): Option<Line> {
    if lines == [] then None
    else
      var line := lines[|lines| - 1];
      if line.heading.SummaryHead? then (if line.words.Some? then Some(line) else None)
      else SummaryLine(lines[..|lines| - 1])
  }

  predicate Useful(line: Line) { line.useful }

  /** The state the summary names: of the summary heading, else of the first line before any section that is of use. */
  function SummaryState(lines: seq<Line>): Option<Lifecycle> {
    var summary, plain := SummaryLine(lines), Filter(PlainLines(lines, NoHead, NoHead), Useful);
    if summary.Some? then summary.value.entered else if plain != [] then plain[0].entered else None
  }

  /** The first state named anywhere in the message. */
  function MessageState(lines: seq<Line>): Option<Lifecycle> {
    if lines == [] then None else if lines[0].entered.Some? then lines[0].entered else MessageState(lines[1..])
  }

  // ---------------------------------------------------------------- presentation

  function LifecyclePresentation(state: Lifecycle): Presentation {
    match state
    case Queued => Presentation(true, QUEUED, T.Running)
    case Running => Presentation(true, AGENT_STARTED, T.Running)
    case Committing => Presentation(true, SAVING_RESULTS, T.Running)
    case Succeeded => Presentation(true, COMPLETED, T.Done)
    case Blocked => Presentation(true, ATTENTION, T.Waiting)
    case Failed => Presentation(true, ATTENTION, T.Failed)
    case Cancelled => Presentation(true, CANCELLED, T.Cancelled)
    case Cancelling => Presentation(true, CANCELLING, T.Running)
    case Unknown => Presentation(true, EXECUTING_TASK, T.Running)
  }

  function Present(m: Message): Presentation {
    match m.kind
    case OtherLabel(shown) => shown
    case LifecycleLabel =>
      match SummaryState(m.lines)
      case Some(state) => LifecyclePresentation(state)
      case None =>
        if m.error then Presentation(true, ATTENTION, T.Failed) else Presentation(true, EXECUTING_TASK, T.Running)
  }

  function TerminalStatus(state: Lifecycle): Option<T.Status> {
    match state
    case Succeeded => Some(T.Done)
    case Failed => Some(T.Failed)
    case Blocked => Some(T.Failed)
    case Cancelled => Some(T.Cancelled)
    case _ => None
  }

  function Ends(m: Message): Option<T.Status> {
    if m.kind.LifecycleLabel? && MessageState(m.lines).Some? then TerminalStatus(MessageState(m.lines).value) else None
  }

  function Words(lines: seq<Line>): seq<nat> {
    if lines == [] then [] else (if lines[0].words.Some? then [lines[0].words.value] else []) + Words(lines[1..])
  }

  function RawLines(lines: seq<Line>): seq<nat> {
    if lines == [] then [] else (if lines[0].raw.Some? then [lines[0].raw.value] else []) + RawLines(lines[1..])
  }

  function SectionOf(title: nat, lines: seq<Line>): seq<T.Section> {
    if lines == [] then [] else [T.Section(title, Words(lines))]
  }

  function TechnicalSections(m: Message): seq<T.Section> {
    SectionOf(EVIDENCE, PlainLines(m.lines, EvidenceHead, NoHead)) +
        SectionOf(DETAILS, PlainLines(m.lines, DetailsHead, NoHead))
    + SectionOf(FOLLOW_UP, PlainLines(m.lines, NextHead, NoHead)) +
        [T.Section(RAW_EVENT, [m.caption] + RawLines(m.lines))]
  }

  function Classify(m: Message): T.Log {
    var shown := Present(m);
    T.Log(m.id, shown.titled, shown.key, shown.status, Ends(m), TechnicalSections(m))
  }

  /** Whatever the text, the log is one the timeline's theorems are about. */
  lemma ClassifyOk(m: Message)
    ensures T.Classified(Classify(m))
  {
    var a := SectionOf(EVIDENCE, PlainLines(m.lines, EvidenceHead, NoHead));
    var b := SectionOf(DETAILS, PlainLines(m.lines, DetailsHead, NoHead));
    var c := SectionOf(FOLLOW_UP, PlainLines(m.lines, NextHead, NoHead));
    assert |a| <= 1 && |b| <= 1 && |c| <= 1;
    assert T.DistinctTitles(TechnicalSections(m));
  }

  // ---------------------------------------------------------------- logs that end a session and still run

  predicate NamesEnd(state: Option<Lifecycle>) { state.Some? && TerminalStatus(state.value).Some? }

  /**
   * A log ends its session while it is presented as running exactly if the message names a final state and the
   * summary does not, and a summary that names none does not come with an error.
   */
  lemma EndsRunningIff(m: Message)
    ensures m.kind.LifecycleLabel? ==>
      (T.EndsRunning(Classify(m)) <==>
         NamesEnd(MessageState(m.lines)) && !NamesEnd(SummaryState(m.lines)) &&
             (SummaryState(m.lines).Some? || !m.error))
    ensures m.kind.OtherLabel? ==> !T.EndsRunning(Classify(m))
  {
    if m.kind.LifecycleLabel? && SummaryState(m.lines).Some? { PresentedRunning(SummaryState(m.lines).value); }
  }

  lemma PresentedRunning(state: Lifecycle)
    ensures LifecyclePresentation(state).status.Running? <==> TerminalStatus(state).None?
  {
  }

  const EVIDENCE_LINE: Line := Line(EvidenceHead, Some(1), None, false, None)
  const SUCCESS_LINE: Line := Line(NoHead, Some(2), Some(2), true, Some(Succeeded))
  const DASHES_LINE: Line := Line(NoHead, Some(3), Some(3), false, None)

  lemma TwoLines(a: Line, b: Line)
    requires !a.heading.SummaryHead? && !b.heading.SummaryHead? && a.entered.None?
    ensures SummaryLine([a, b]) == None && MessageState([a, b]) == b.entered
    ensures PlainLines([a, b], NoHead, NoHead)
         == (if a.heading.NoHead? && a.words.Some? then [a] else [])
          + (if b.heading.NoHead? && b.words.Some? && SectionAfter(NoHead, a).NoHead? then [b] else [])
  {
    var both := [a, b];
    assert both[1..] == [b] && [b][1..] == [] && both[..1] == [a] && [a][..0] == [];
    assert SummaryLine(both) == SummaryLine([a]) == SummaryLine([]);
    assert MessageState(both) == MessageState([b]);
    assert MessageState([]) == None;
    assert PlainLines([], NoHead, SectionAfter(SectionAfter(NoHead, a), b)) == [];
    assert PlainLines([b], NoHead, SectionAfter(NoHead, a))
        == if b.heading.NoHead? && b.words.Some? && SectionAfter(NoHead, a).NoHead? then [b] else [];
  }

  /** "EVIDENCE:", then "Task Session entered succeeded": the timeline ends, and its one activity goes on running. */
  lemma RunningAfterTheEnd()
    ensures var m := Message(1, LifecycleLabel, false, 0, [EVIDENCE_LINE, SUCCESS_LINE]);
      TextOk(m.lines) && T.RunsOn([Classify(m)])
  {
    var m := Message(1, LifecycleLabel, false, 0, [EVIDENCE_LINE, SUCCESS_LINE]);
    TwoLines(EVIDENCE_LINE, SUCCESS_LINE);
    assert SummaryState(m.lines) == None;
    EndsRunningIff(m);
    T.EndingLogRunsOn(Classify(m));
  }

  /** "- -" in place of the heading makes no such log: the line is dropped, and the next one is the summary. */
  lemma DashesAreDropped()
    ensures var m := Message(1, LifecycleLabel, false, 0, [DASHES_LINE, SUCCESS_LINE]);
      TextOk(m.lines) && !T.EndsRunning(Classify(m)) && Present(m) == LifecyclePresentation(Succeeded)
  {
    var m := Message(1, LifecycleLabel, false, 0, [DASHES_LINE, SUCCESS_LINE]);
    TwoLines(DASHES_LINE, SUCCESS_LINE);
    var plain := [DASHES_LINE, SUCCESS_LINE];
    assert PlainLines(m.lines, NoHead, NoHead) == plain;
    assert plain[1..] == [SUCCESS_LINE] && [SUCCESS_LINE][1..] == [];
    assert Filter(plain, Useful) == Filter(plain[1..], Useful) == [SUCCESS_LINE];
    EndsRunningIff(m);
  }

  // ---------------------------------------------------------------- the app's own producer

  /**
   * The lines projectAgentTaskSessionEvent writes: a status, a summary that may name a state, and facts that name
   * none.
   */
  predicate Produced(lines: seq<Line>) {
    && |lines| >= 2
    && lines[0].heading.StatusHead? && lines[0].entered.None?
    && lines[1].heading.SummaryHead? && lines[1].words.Some?
    && forall i :: 2 <= i < |lines| ==> !lines[i].heading.SummaryHead? && lines[i].entered.None?
  }

  lemma {:induction false} SummaryIsSecond(lines: seq<Line>, n: nat)
    requires Produced(lines) && 2 <= n <= |lines|
    ensures SummaryLine(lines[..n]) == Some(lines[1])
  {
    if n > 2 {
      assert lines[..n][..n - 1] == lines[..n - 1];
      SummaryIsSecond(lines, n - 1);
    }
  }

  lemma {:induction false} NamesNothing(lines: seq<Line>)
    requires forall i :: 0 <= i < |lines| ==> lines[i].entered.None?
    ensures MessageState(lines) == None
  {
    if lines != [] { NamesNothing(lines[1..]); }
  }

  lemma ProducedAgrees(lines: seq<Line>)
    requires Produced(lines)
    ensures MessageState(lines) == SummaryState(lines) == lines[1].entered
  {
    SummaryIsSecond(lines, |lines|);
    assert lines[..|lines|] == lines;
    assert lines[1..][0] == lines[1] && lines[1..][1..] == lines[2..];
    NamesNothing(lines[2..]);
  }

  /** So a timeline of the app's own lifecycle messages, with any others mixed in, runs nothing after the end. */
  lemma ProducedNeverRunsOn(messages: set<Message>)
    requires forall m :: m in messages && m.kind.LifecycleLabel? ==> Produced(m.lines)
    ensures forall logs :: T.AllFrom(logs, set m | m in messages :: Classify(m)) ==> !T.RunsOn(logs)
  {
    var source := set m | m in messages :: Classify(m);
    forall l | l in source ensures T.Classified(l) && !T.EndsRunning(l) {
      var m :| m in messages && l == Classify(m);
      ClassifyOk(m);
      EndsRunningIff(m);
      if m.kind.LifecycleLabel? { ProducedAgrees(m.lines); }
    }
    T.NeverRunsOnIff(source);
  }

  /** For any messages: no timeline of them runs on exactly if none names a final state its summary leaves out. */
  lemma NeverRunsOnIff(messages: set<Message>)
    ensures (forall logs :: T.AllFrom(logs, set m | m in messages :: Classify(m)) ==> !T.RunsOn(logs)) <==>
      forall m :: m in messages && m.kind.LifecycleLabel? && NamesEnd(MessageState(m.lines)) ==>
        NamesEnd(SummaryState(m.lines)) || (SummaryState(m.lines).None? && m.error)
  {
    var source := set m | m in messages :: Classify(m);
    forall l | l in source ensures T.Classified(l) {
      var m :| m in messages && l == Classify(m);
      ClassifyOk(m);
    }
    T.NeverRunsOnIff(source);
    forall m | m in messages ensures Classify(m) in source {
      EndsRunningIff(m);
    }
    forall m | m in messages
      ensures T.EndsRunning(Classify(m)) <==>
        m.kind.LifecycleLabel? && NamesEnd(MessageState(m.lines)) && !NamesEnd(SummaryState(m.lines)) &&
            (SummaryState(m.lines).Some? || !m.error)
    {
      EndsRunningIff(m);
    }
  }
}
