/**
 * Coalescing of the events a runtime streams (src-tauri/src/application/prompt_task_executor.rs,
 * coalesce_runtime_events).
 */
module Coalesce {
  import opened Prelude

  // Usage reports and the other events keep their payload; nothing here looks into it.
  datatype Event = TextDelta(text: string) | Usage(report: nat) | Other(event: nat)

  datatype Held = Held(out: seq<Event>, text: string, usage: Option<nat>)

  function Flush(h: Held): seq<Event> {
    h.out + (if h.text != "" then [TextDelta(h.text)] else []) + (if h.usage.Some? then [Usage(h.usage.value)] else [])
  }

  function Step(h: Held, e: Event): Held {
    match e
    case TextDelta(delta) => h.(text := h.text + delta)
    case Usage(report) => if h.text != "" then h.(usage := Some(report)) else Held(Flush(h) + [e], "", None)
    case Other(_) => Held(Flush(h) + [e], "", None)
  }

  function Holding(events: seq<Event>): Held {
    if events == [] then Held([], "", None) else Step(Holding(events[..|events| - 1]), events[|events| - 1])
  }

  function Coalesced(events: seq<Event>): seq<Event> { Flush(Holding(events)) }

  /** Usage is only ever held back together with text. */
  ghost predicate UsageHasText(h: Held) { h.usage.Some? ==> h.text != "" }

  method CoalesceRuntimeEvents(events: seq<Event>) returns (coalesced: seq<Event>)
    ensures coalesced == Coalesced(events) && |coalesced| <= |events|
  {
    coalesced := [];
    var text := "";
    var usage: Option<nat> := None;
    for i := 0 to |events|
      invariant Held(coalesced, text, usage) == Holding(events[..i]) && UsageHasText(Held(coalesced, text, usage))
      invariant |coalesced| + (if text != "" then 1 else 0) + (if usage.Some? then 1 else 0) <= i
    {
      assert events[..i + 1][..i] == events[..i];
      var event := events[i];
      if event.TextDelta? {
        text := text + event.text;
      } else if event.Usage? && text != "" {
        usage := Some(event.report);
      } else {
        if text != "" {
          coalesced := coalesced + [TextDelta(text)];
        }
        if usage.Some? {
          coalesced := coalesced + [Usage(usage.value)];
        }
        coalesced := coalesced + [event];
        text, usage := "", None;
      }
    }
    assert events[..|events|] == events;
    if text != "" {
      coalesced := coalesced + [TextDelta(text)];
    }
    if usage.Some? {
      coalesced := coalesced + [Usage(usage.value)];
    }
  }

  lemma {:induction false} UsageHeldWithText(events: seq<Event>)
    ensures UsageHasText(Holding(events))
  {
    if events != [] { UsageHeldWithText(events[..|events| - 1]); }
  }

  // ---------------------------------------------------------------- what a stream means

  /** Between two other events only the text and the last usage report matter. */
  datatype Stretch = Stretch(text: string, usage: Option<nat>)

  /** The other events in order, each with the stretch before it, and the stretch after the last. */
  datatype Meaning = Meaning(closed: seq<(Stretch, nat)>, current: Stretch)

  function Understand(m: Meaning, e: Event): Meaning {
    match e
    case TextDelta(delta) => m.(current := m.current.(text := m.current.text + delta))
    case Usage(report) => m.(current := m.current.(usage := Some(report)))
    case Other(event) => Meaning(m.closed + [(m.current, event)], Stretch("", None))
  }

  function MeaningOf(events: seq<Event>): Meaning {
    if events == [] then Meaning([], Stretch("", None))
    else Understand(MeaningOf(events[..|events| - 1]), events[|events| - 1])
  }

  lemma MeaningSnoc(events: seq<Event>, e: Event)
    ensures MeaningOf(events + [e]) == Understand(MeaningOf(events), e)
  {
    assert (events + [e])[..|events|] == events;
  }

  /** What is held back, read after what has been sent. */
  lemma FlushMeans(h: Held)
    ensures var m := MeaningOf(h.out);
      MeaningOf(Flush(h)) ==
          m.(current := Stretch(m.current.text + h.text, if h.usage.Some? then h.usage else m.current.usage))
  {
    var m := MeaningOf(h.out);
    var texted := h.out + if h.text != "" then [TextDelta(h.text)] else [];
    if h.text != "" {
      MeaningSnoc(h.out, TextDelta(h.text));
    } else {
      assert texted == h.out && m.current.text + "" == m.current.text;
    }
    if h.usage.Some? { MeaningSnoc(texted, Usage(h.usage.value)); } else { assert Flush(h) == texted; }
  }

  lemma StepMeans(h: Held, e: Event)
    requires UsageHasText(h)
    ensures MeaningOf(Flush(Step(h, e))) == Understand(MeaningOf(Flush(h)), e)
  {
    var after := Step(h, e);
    FlushMeans(h);
    FlushMeans(after);
    match e
    case TextDelta(delta) => ConcatAssoc(MeaningOf(h.out).current.text, h.text, delta);
    case Usage(report) =>
      if h.text == "" {
        MeaningSnoc(Flush(h), e);
        assert MeaningOf(after.out).current.text + "" == MeaningOf(after.out).current.text;
      }
    case Other(_) =>
      MeaningSnoc(Flush(h), e);
      assert MeaningOf(after.out).current.text + "" == MeaningOf(after.out).current.text;
  }

  /** Coalescing keeps the meaning. */
  lemma {:induction false} MeaningKept(events: seq<Event>)
    ensures MeaningOf(Coalesced(events)) == MeaningOf(events)
  {
    if events != [] {
      var front := events[..|events| - 1];
      MeaningKept(front);
      UsageHeldWithText(front);
      StepMeans(Holding(front), events[|events| - 1]);
    }
  }

  // ---------------------------------------------------------------- which streams stay as they are

  predicate EndsInText(events: seq<Event>) { events != [] && events[|events| - 1].TextDelta? }

  predicate EndsInTextAndUsage(events: seq<Event>) {
    |events| >= 2 && events[|events| - 1].Usage? && events[|events| - 2].TextDelta?
  }

  predicate TextOpen(events: seq<Event>) { EndsInText(events) || EndsInTextAndUsage(events) }

  /** What may come next in a tight stream. */
  predicate Follows(events: seq<Event>, e: Event) {
    match e
    case TextDelta(text) => text != "" && !TextOpen(events)
    case Usage(_) => !EndsInTextAndUsage(events)
    case Other(_) => true
  }

  /** No empty text, and after text nothing but at most one usage report before the next other event. */
  predicate Tight(events: seq<Event>) {
    events == [] || (Tight(events[..|events| - 1]) && Follows(events[..|events| - 1], events[|events| - 1]))
  }

  lemma TightSnoc(events: seq<Event>, e: Event)
    ensures Tight(events + [e]) <==> Tight(events) && Follows(events, e)
  {
    assert (events + [e])[..|events|] == events;
  }

  /** What has been sent is tight and has no text open. */
  ghost predicate Closed(h: Held) { Tight(h.out) && !TextOpen(h.out) }

  lemma FlushTight(h: Held)
    requires Closed(h) && UsageHasText(h)
    ensures Tight(Flush(h)) && (h.text == "" ==> Flush(h) == h.out)
  {
    if h.text != "" {
      var texted := h.out + [TextDelta(h.text)];
      TightSnoc(h.out, TextDelta(h.text));
      if h.usage.Some? { TightSnoc(texted, Usage(h.usage.value)); } else { assert Flush(h) == texted; }
    } else {
      assert Flush(h) == h.out;
    }
  }

  lemma {:induction false} HoldingClosed(events: seq<Event>)
    ensures Closed(Holding(events)) && UsageHasText(Holding(events))
  {
    if events != [] {
      var h, e := Holding(events[..|events| - 1]), events[|events| - 1];
      HoldingClosed(events[..|events| - 1]);
      if !e.TextDelta? && !(e.Usage? && h.text != "") {
        FlushTight(h);
        TightSnoc(Flush(h), e);
      }
    }
  }

  /** Through a tight stream, what is held back is exactly the text left open, and nothing has been rewritten. */
  lemma {:induction false} TightUnchanged(events: seq<Event>)
    requires Tight(events)
    ensures Coalesced(events) == events
    ensures (Holding(events).text != "" <==> TextOpen(events))
    ensures (Holding(events).usage.Some? <==> EndsInTextAndUsage(events))
  {
    if events != [] {
      var front, e := events[..|events| - 1], events[|events| - 1];
      assert events == front + [e];
      TightUnchanged(front);
      var h := Holding(front);
      UsageHeldWithText(front);
      match e
      case TextDelta(text) => assert h.text + text == text && Flush(h) == h.out;
      case Usage(report) =>
        if h.text != "" { assert EndsInText(front) && h.usage.None?; }
      case Other(_) =>
    }
  }

  /** Coalescing changes nothing exactly in tight streams, and its outcome is one. */
  lemma CoalescedIff(events: seq<Event>)
    ensures Tight(Coalesced(events))
    ensures Coalesced(events) == events <==> Tight(events)
  {
    HoldingClosed(events);
    FlushTight(Holding(events));
    if Tight(events) { TightUnchanged(events); }
  }

  lemma CoalescedTwice(events: seq<Event>)
    ensures Coalesced(Coalesced(events)) == Coalesced(events)
  {
    CoalescedIff(events);
    TightUnchanged(Coalesced(events));
  }
}
