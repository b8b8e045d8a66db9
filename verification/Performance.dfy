/**
 * The metrics the front end keeps of itself (src/lib/performance.ts): a ring buffer of samples for each metric,
 * a rate window for each counter, and the recent spans. Numbers are exact: rounding is not modelled.
 */
module Performance {
  import opened Prelude
  import opened Sorting

  const SAMPLE_LIMIT: nat := 1024
  const RECENT_SPAN_LIMIT: nat := 256
  const RATE_WINDOW: real := 10_000.0

  // ---------------------------------------------------------------- the ring buffer

  datatype Ring = Ring(samples: seq<real>, cursor: nat)

  /** The buffer read from the cursor around is the last 1024 of `history`. */
  ghost predicate RingHolds(r: Ring, history: seq<real>) {
    && r.cursor <= |r.samples| && (|history| < SAMPLE_LIMIT ==> r.cursor == 0)
    && r.samples[r.cursor..] + r.samples[..r.cursor] == LastOf(history, SAMPLE_LIMIT)
    && (|r.samples| == SAMPLE_LIMIT ==> r.cursor < SAMPLE_LIMIT) && |r.samples| <= SAMPLE_LIMIT
  }

  function Push(r: Ring, v: real): Ring {
    if |r.samples| < SAMPLE_LIMIT then r.(samples := r.samples + [v])
    else if r.cursor < |r.samples| then Ring(r.samples[r.cursor := v], (r.cursor + 1) % SAMPLE_LIMIT)
    else r
  }

  lemma PushHolds(r: Ring, history: seq<real>, v: real)
    requires RingHolds(r, history)
    ensures RingHolds(Push(r, v), history + [v])
  {
    var window := LastOf(history, SAMPLE_LIMIT);
    assert |r.samples| == |window|;
    if |window| < SAMPLE_LIMIT {
      assert history == window && r.samples[0..] + r.samples[..0] == r.samples;
      assert Push(r, v).samples[0..] + Push(r, v).samples[..0] == history + [v];
    } else {
      var q := Push(r, v);
      assert LastOf(history + [v], SAMPLE_LIMIT) == window[1..] + [v];
      assert r.samples[r.cursor..][1..] == r.samples[r.cursor + 1..];
      assert window[1..] == r.samples[r.cursor + 1..] + r.samples[..r.cursor];
      if r.cursor == SAMPLE_LIMIT - 1 {
        assert q.samples[0..] + q.samples[..0] == r.samples[..r.cursor] + [v];
      } else {
        assert q.samples[q.cursor..] == r.samples[r.cursor + 1..];
        assert q.samples[..q.cursor] == r.samples[..r.cursor] + [v];
      }
    }
  }

  // ---------------------------------------------------------------- percentiles

  function Ceil(x: real): int { -((-x).Floor) }

  predicate AtMost(a: real, b: real) { a <= b }

  /** The position of the wanted share among `n` values. */
  function Rank(n: nat, p: real): (k: nat)
    requires n > 0
    ensures k < n
  {
    Min(n - 1, Max(0, Ceil(n as real * p) - 1))
  }

  function Percentile(sorted: seq<real>, p: real): real {
    if sorted == [] then 0.0 else sorted[Rank(|sorted|, p)]
  }

  /** The nearest rank: rank `k + 1` is the first that reaches the wanted share of the values. */
  lemma NearestRank(n: nat, p: real)
    requires n > 0 && 0.0 < p <= 1.0
    ensures Rank(n, p) as real < n as real * p <= (Rank(n, p) + 1) as real
  {
    ShareOf(n as real, p);
  }

  lemma ShareOf(n: real, p: real)
    requires n > 0.0 && 0.0 < p <= 1.0
    ensures 0.0 < n * p <= n
  {
  }

  lemma Monotone(n: real, p: real, q: real)
    requires n >= 0.0 && p <= q
    ensures n * p <= n * q
  {
  }

  lemma CeilGrows(x: real, y: real)
    requires x <= y
    ensures Ceil(x) <= Ceil(y)
  {
  }

  lemma RankGrows(n: nat, p: real, q: real)
    requires n > 0 && p <= q
    ensures Rank(n, p) <= Rank(n, q)
  {
    Monotone(n as real, p, q);
    CeilGrows(n as real * p, n as real * q);
  }

  lemma PercentileGrows(sorted: seq<real>, p: real, q: real)
    requires SortedBy(sorted, AtMost) && p <= q
    ensures Percentile(sorted, p) <= Percentile(sorted, q)
  {
    if sorted != [] {
      RankGrows(|sorted|, p, q);
      var i, j := Rank(|sorted|, p), Rank(|sorted|, q);
      assert i < j ==> AtMost(sorted[i], sorted[j]);
    }
  }

  // ---------------------------------------------------------------- one metric

  datatype Aggregate = Aggregate(count: nat, total: real, max: real, ring: Ring)

  datatype Summary = Summary(count: nat, average: real, p50: real, p95: real, p99: real, max: real)

  function Sum(s: seq<real>): real { if s == [] then 0.0 else Sum(s[..|s| - 1]) + s[|s| - 1] }

  /** `max` is the greatest value of `history`, none of which is negative; of no values, zero. */
  ghost predicate Greatest(max: real, history: seq<real>) {
    && (forall i :: 0 <= i < |history| ==> 0.0 <= history[i] <= max)
    && (if history == [] then max == 0.0 else max in history)
  }

  ghost predicate AggregateOk(a: Aggregate, history: seq<real>) {
    && a.count == |history| && a.total == Sum(history)
    && RingHolds(a.ring, history) && Greatest(a.max, history)
  }

  function MaxReal(a: real, b: real): real { if a < b then b else a }

  function Add(a: Aggregate, v: real): Aggregate {
    a.(count := a.count + 1, total := a.total + v, max := MaxReal(a.max, v), ring := Push(a.ring, v))
  }

  lemma GreatestOf(max: real, history: seq<real>, v: real)
    requires Greatest(max, history) && v >= 0.0
    ensures Greatest(MaxReal(max, v), history + [v])
  {
    var more := history + [v];
    if history != [] && max >= v {
      var i :| 0 <= i < |history| && history[i] == max;
      assert more[i] == max;
    } else {
      assert more[|history|] == v;
    }
  }

  lemma AddOk(a: Aggregate, history: seq<real>, v: real)
    requires AggregateOk(a, history) && v >= 0.0
    ensures AggregateOk(Add(a, v), history + [v])
  {
    PushHolds(a.ring, history, v);
    GreatestOf(a.max, history, v);
    assert (history + [v])[..|history|] == history;
  }

  function Summarize(a: Aggregate): Summary {
    var sorted := SortBy(a.ring.samples, AtMost);
    Summary(a.count, if a.count == 0 then 0.0 else a.total / a.count as real,
            Percentile(sorted, 0.5), Percentile(sorted, 0.95), Percentile(sorted, 0.99), a.max)
  }

  /** Where the ring starts does not matter: the buffer sorts to what the last 1024 samples sort to. */
  lemma RingSorts(r: Ring, history: seq<real>)
    requires RingHolds(r, history)
    ensures SortBy(r.samples, AtMost) == SortBy(LastOf(history, SAMPLE_LIMIT), AtMost)
  {
    assert TotalPreorder(AtMost) && Antisymmetric(AtMost);
    assert r.samples == r.samples[..r.cursor] + r.samples[r.cursor..];
    var window := LastOf(history, SAMPLE_LIMIT);
    SortIs(r.samples, AtMost);
    SortIs(window, AtMost);
    SortedOneWay(SortBy(r.samples, AtMost), SortBy(window, AtMost), AtMost);
  }

  lemma PercentileWithin(history: seq<real>, max: real, p: real)
    requires Greatest(max, history)
    ensures Percentile(SortBy(LastOf(history, SAMPLE_LIMIT), AtMost), p) <= max
  {
    var window := LastOf(history, SAMPLE_LIMIT);
    var sorted := SortBy(window, AtMost);
    assert TotalPreorder(AtMost);
    SortIs(window, AtMost);
    MultisetMembers(sorted, window);
    if sorted != [] { WindowWithin(history, max, sorted[Rank(|sorted|, p)]); }
  }

  lemma WindowWithin(history: seq<real>, max: real, x: real)
    requires Greatest(max, history) && x in LastOf(history, SAMPLE_LIMIT)
    ensures x <= max
  {
    var window := LastOf(history, SAMPLE_LIMIT);
    var i :| 0 <= i < |window| && window[i] == x;
    assert window[i] == history[|history| - |window| + i];
  }

  /** The summary is that of the last 1024 samples, and its percentiles are in order, up to the greatest value ever. */
  lemma SummaryIs(a: Aggregate, history: seq<real>)
    requires AggregateOk(a, history)
    ensures var s := Summarize(a);
      var sorted := SortBy(LastOf(history, SAMPLE_LIMIT), AtMost);
      && s.p50 == Percentile(sorted, 0.5) && s.p95 == Percentile(sorted, 0.95) && s.p99 == Percentile(sorted, 0.99)
      && s.p50 <= s.p95 <= s.p99 <= s.max
      && SortedBy(sorted, AtMost) && multiset(sorted) == multiset(LastOf(history, SAMPLE_LIMIT))
  {
    var sorted := SortBy(LastOf(history, SAMPLE_LIMIT), AtMost);
    RingSorts(a.ring, history);
    assert TotalPreorder(AtMost);
    SortIs(LastOf(history, SAMPLE_LIMIT), AtMost);
    PercentileGrows(sorted, 0.5, 0.95);
    PercentileGrows(sorted, 0.95, 0.99);
    PercentileWithin(history, a.max, 0.99);
  }

  // ---------------------------------------------------------------- one counter

  datatype Stamp = Stamp(at: real, amount: real)

  datatype Counter = Counter(total: real, stamps: seq<Stamp>)

  /** trimRateWindow: stamps are dropped from the front until one is not older than the cutoff. */
  function TrimWindow(stamps: seq<Stamp>, cutoff: real): seq<Stamp> {
    if stamps != [] && stamps[0].at < cutoff then TrimWindow(stamps[1..], cutoff) else stamps
  }

  method TrimRateWindow(stamps: seq<Stamp>, cutoff: real) returns (kept: seq<Stamp>)
    ensures kept == TrimWindow(stamps, cutoff)
  {
    var firstRetained := 0;
    while firstRetained < |stamps| && stamps[firstRetained].at < cutoff
      invariant firstRetained <= |stamps| && TrimWindow(stamps, cutoff) == TrimWindow(stamps[firstRetained..], cutoff)
    {
      assert stamps[firstRetained..][1..] == stamps[firstRetained + 1..];
      firstRetained := firstRetained + 1;
    }
    kept := stamps[firstRetained..];
  }

  function Recent(stamps: seq<Stamp>, cutoff: real): seq<Stamp> { Filter(stamps, (s: Stamp) => s.at >= cutoff) }

  /** Nothing older than the cutoff comes after something that is not. */
  ghost predicate OldFirst(stamps: seq<Stamp>, cutoff: real) {
    forall i, j :: 0 <= i < j < |stamps| && stamps[i].at >= cutoff ==> stamps[j].at >= cutoff
  }

  lemma {:induction false} AllRecent(stamps: seq<Stamp>, cutoff: real)
    ensures Recent(stamps, cutoff) == stamps <==> forall i :: 0 <= i < |stamps| ==> stamps[i].at >= cutoff
  {
    if stamps != [] {
      AllRecent(stamps[1..], cutoff);
      assert stamps == [stamps[0]] + stamps[1..];
      if stamps[0].at < cutoff {
        assert |Recent(stamps, cutoff)| < |stamps|;
      } else if Recent(stamps[1..], cutoff) != stamps[1..] {
        assert Recent(stamps, cutoff)[1..] == Recent(stamps[1..], cutoff);
      }
    }
  }

  /** Trimming keeps exactly the stamps that are not older than the cutoff, if and only if the old ones come first. */
  lemma {:induction false} TrimIsRecentIff(stamps: seq<Stamp>, cutoff: real)
    ensures TrimWindow(stamps, cutoff) == Recent(stamps, cutoff) <==> OldFirst(stamps, cutoff)
  {
    if stamps != [] {
      if stamps[0].at < cutoff {
        TrimIsRecentIff(stamps[1..], cutoff);
        OldFirstTail(stamps, cutoff);
      } else {
        AllRecent(stamps, cutoff);
        if OldFirst(stamps, cutoff) {
          assert forall j :: 0 < j < |stamps| ==> stamps[j].at >= cutoff;
        }
      }
    }
  }

  lemma OldFirstTail(stamps: seq<Stamp>, cutoff: real)
    requires stamps != [] && stamps[0].at < cutoff
    ensures OldFirst(stamps, cutoff) <==> OldFirst(stamps[1..], cutoff)
  {
    if OldFirst(stamps[1..], cutoff) {
      forall i, j | 0 <= i < j < |stamps| && stamps[i].at >= cutoff ensures stamps[j].at >= cutoff {
        assert stamps[1..][i - 1] == stamps[i] && stamps[1..][j - 1] == stamps[j];
      }
    }
  }

  ghost predicate InTimeOrder(stamps: seq<Stamp>) {
    forall i, j :: 0 <= i < j < |stamps| ==> stamps[i].at <= stamps[j].at
  }

  function Amounts(stamps: seq<Stamp>): real {
    if stamps == [] then 0.0 else Amounts(stamps[..|stamps| - 1]) + stamps[|stamps| - 1].amount
  }

  /** The counter's window holds the increments of `history` not older than some cutoff. */
  ghost predicate CounterOk(c: Counter, history: seq<Stamp>, cutoff: real) {
    && InTimeOrder(history) && c.total == Amounts(history) && c.stamps == Recent(history, cutoff)
  }

  lemma {:induction false} RecentTwice(stamps: seq<Stamp>, earlier: real, later: real)
    requires earlier <= later
    ensures Recent(Recent(stamps, earlier), later) == Recent(stamps, later)
  {
    if stamps != [] {
      RecentTwice(stamps[1..], earlier, later);
      FilterConcat(if stamps[0].at >= earlier then [stamps[0]]
                   else [], Recent(stamps[1..], earlier), (s: Stamp) => s.at >= later);
    }
  }

  lemma {:induction false} RecentInOrder(stamps: seq<Stamp>, cutoff: real)
    requires InTimeOrder(stamps)
    ensures InTimeOrder(Recent(stamps, cutoff))
  {
    if stamps != [] {
      RecentInOrder(stamps[1..], cutoff);
      FilterMembers(stamps[1..], (s: Stamp) => s.at >= cutoff);
      var rest := Recent(stamps[1..], cutoff);
      forall j | 0 <= j < |rest| ensures stamps[0].at <= rest[j].at { assert rest[j] in stamps[1..]; }
    }
  }

  /** Whenever the window is trimmed, at a later time, it holds exactly the increments of the last ten seconds. */
  lemma TrimmedOk(c: Counter, history: seq<Stamp>, cutoff: real, later: real)
    requires CounterOk(c, history, cutoff) && cutoff <= later
    ensures TrimWindow(c.stamps, later) == Recent(history, later)
  {
    RecentInOrder(history, cutoff);
    TrimIsRecentIff(c.stamps, later);
    RecentTwice(history, cutoff, later);
  }

  lemma IncrementedOk(c: Counter, history: seq<Stamp>, cutoff: real, now: real, amount: real)
    requires CounterOk(c, history, cutoff) && cutoff <= now - RATE_WINDOW && forall i :: 0 <= i < |history| ==>
      history[i].at <= now
    ensures CounterOk(c.(total := c.total + amount,
                         stamps := TrimWindow(c.stamps + [Stamp(now, amount)], now - RATE_WINDOW)),
                      history + [Stamp(now, amount)], now - RATE_WINDOW)
  {
    AppendedOk(c, history, cutoff, Stamp(now, amount));
    TrimmedOk(c.(total := c.total + amount, stamps := c.stamps + [Stamp(now, amount)]), history + [Stamp(now, amount)],
              cutoff, now - RATE_WINDOW);
  }

  lemma AmountsAppended(history: seq<Stamp>, s: Stamp)
    ensures Amounts(history + [s]) == Amounts(history) + s.amount
  {
    assert (history + [s])[..|history|] == history;
  }

  lemma RecentAppended(history: seq<Stamp>, cutoff: real, s: Stamp)
    requires cutoff <= s.at
    ensures Recent(history + [s], cutoff) == Recent(history, cutoff) + [s]
  {
    FilterConcat(history, [s], (r: Stamp) => r.at >= cutoff);
    assert Recent([s], cutoff) == [s];
  }

  /** The latest increment joins the window untrimmed. */
  lemma AppendedOk(c: Counter, history: seq<Stamp>, cutoff: real, s: Stamp)
    requires CounterOk(c, history, cutoff) && cutoff <= s.at && forall i :: 0 <= i < |history| ==> history[i].at <= s.at
    ensures CounterOk(Counter(c.total + s.amount, c.stamps + [s]), history + [s], cutoff)
  {
    AmountsAppended(history, s);
    RecentAppended(history, cutoff, s);
  }

  /** The window of `c` was last trimmed at some time up to `clock`. */
  ghost predicate CounterValid(c: Counter, history: seq<Stamp>, clock: real) {
    && (exists cutoff :: cutoff <= clock - RATE_WINDOW && CounterOk(c, history, cutoff))
    && forall i :: 0 <= i < |history| ==> history[i].at <= clock
  }

  /** A counter incremented: what becomes of its books. */
  lemma Incremented(c: Counter, history: seq<Stamp>, clock: real, now: real, amount: real)
    requires CounterValid(c, history, clock) && clock <= now
    ensures CounterValid(Counter(c.total + amount, TrimWindow(c.stamps + [Stamp(now, amount)], now - RATE_WINDOW)),
                         history + [Stamp(now, amount)], now)
  {
    var cutoff :| cutoff <= clock - RATE_WINDOW && CounterOk(c, history, cutoff);
    IncrementedOk(c, history, cutoff, now, amount);
    NotLater(history, clock, Stamp(now, amount));
  }

  lemma NotLater(history: seq<Stamp>, clock: real, s: Stamp)
    requires clock <= s.at && forall i :: 0 <= i < |history| ==> history[i].at <= clock
    ensures forall i :: 0 <= i < |history + [s]| ==> (history + [s])[i].at <= s.at
  {
  }

  lemma Trimmed(c: Counter, history: seq<Stamp>, clock: real, now: real)
    requires CounterValid(c, history, clock) && clock <= now
    ensures var kept := TrimWindow(c.stamps, now - RATE_WINDOW);
      kept == Recent(history, now - RATE_WINDOW) && CounterValid(c.(stamps := kept), history, now)
  {
    var cutoff :| cutoff <= clock - RATE_WINDOW && CounterOk(c, history, cutoff);
    TrimmedOk(c, history, cutoff, now - RATE_WINDOW);
    assert CounterOk(c.(stamps := TrimWindow(c.stamps, now - RATE_WINDOW)), history, now - RATE_WINDOW);
  }

  // ---------------------------------------------------------------- the records themselves

  datatype Number = Finite(value: real) | NotFinite

  predicate Recordable(v: Number) { v.Finite? && v.value >= 0.0 }

  class Metric {
    var count: nat
    var total: real
    var max: real
    var samples: seq<real>
    var cursor: nat
    ghost var history: seq<real>

    ghost function View(): Aggregate
      reads this
    {
      Aggregate(count, total, max, Ring(samples, cursor))
    }

    /** `history` is every value recorded. */
    ghost predicate Valid()
      reads this
    {
      AggregateOk(View(), history)
    }

    constructor ()
      ensures Valid() && history == []
    {
      count, total, max, samples, cursor, history := 0, 0.0, 0.0, [], 0, [];
    }

    method Record(v: Number)
      requires Valid()
      modifies this
      ensures Valid() && history == old(history) + if Recordable(v) then [v.value] else []
      ensures View() == if Recordable(v) then Add(old(View()), v.value) else old(View())
    {
      if v.NotFinite? || v.value < 0.0 {
        return;
      }
      AddOk(View(), history, v.value);
      PushSample(v.value);
      count, total, max := count + 1, total + v.value, MaxReal(max, v.value);
      history := history + [v.value];
      assert View() == Add(old(View()), v.value);
    }

    /** What a snapshot reports of the metric. */
    method Snapshot() returns (s: Summary)
      requires Valid()
      ensures s == Summarize(View()) && s.p50 <= s.p95 <= s.p99 <= s.max
    {
      SummaryIs(View(), history);
      var sorted := SortBy(samples, AtMost);
      s := Summary(count, if count == 0 then 0.0 else total / count as real,
                   Percentile(sorted, 0.5), Percentile(sorted, 0.95), Percentile(sorted, 0.99), max);
    }

    method PushSample(v: real)
      requires cursor <= |samples| && (|samples| == SAMPLE_LIMIT ==> cursor < SAMPLE_LIMIT) && |samples| <= SAMPLE_LIMIT
      modifies this`samples, this`cursor
      ensures Ring(samples, cursor) == Push(Ring(old(samples), old(cursor)), v)
    {
      if |samples| < SAMPLE_LIMIT {
        samples := samples + [v];
      } else {
        samples := samples[cursor := v];
        cursor := (cursor + 1) % SAMPLE_LIMIT;
      }
    }
  }

  class RateCounter {
    var total: real
    var stamps: seq<Stamp>
    ghost var history: seq<Stamp>
    ghost var clock: real

    ghost predicate Valid()
      reads this
    {
      CounterValid(Counter(total, stamps), history, clock)
    }

    constructor (now: real)
      ensures Valid() && history == [] && clock == now
    {
      total, stamps, history, clock := 0.0, [], [], now;
      new;
      assert CounterOk(Counter(total, stamps), history, now - RATE_WINDOW);
    }

    method Increment(amount: real, now: real)
      requires Valid() && clock <= now
      modifies this
      ensures Valid() && clock == now && history == old(history) + [Stamp(now, amount)]
    {
      Incremented(Counter(total, stamps), history, clock, now, amount);
      total := total + amount;
      stamps := stamps + [Stamp(now, amount)];
      stamps := TrimRateWindow(stamps, now - RATE_WINDOW);
      history := history + [Stamp(now, amount)];
      clock := now;
    }

    /** The rate a snapshot reports: everything counted in the last ten seconds, per second. */
    method PerSecond(now: real) returns (rate: real)
      requires Valid() && clock <= now
      modifies this`stamps, this`clock
      ensures Valid() && clock == now
      ensures rate == Amounts(Recent(history, now - RATE_WINDOW)) / 10.0
    {
      Trimmed(Counter(total, stamps), history, clock, now);
      stamps := TrimRateWindow(stamps, now - RATE_WINDOW);
      clock := now;
      return Amounts(stamps) / 10.0;
    }
  }

  datatype Span = Span(name: string, category: string, duration: real)

  class SpanLog {
    var profiling: bool
    var recent: seq<Span>
    ghost var spans: seq<Span>

    /** The last 256 of the spans recorded since profiling was last switched off. */
    ghost predicate Valid()
      reads this
    {
      recent == LastOf(spans, RECENT_SPAN_LIMIT) && (!profiling ==> spans == [])
    }

    constructor ()
      ensures Valid() && !profiling && spans == []
    {
      profiling, recent, spans := false, [], [];
    }

    method SetMode(on: bool)
      requires Valid()
      modifies this
      ensures Valid() && profiling == on && spans == if on then old(spans) else []
    {
      profiling := on;
      if !on {
        recent, spans := [], [];
      }
    }

    method Record(span: Span)
      requires Valid()
      modifies this`recent, this`spans
      ensures Valid() && spans == old(spans) + if profiling then [span] else []
    {
      if profiling {
        if |recent| == RECENT_SPAN_LIMIT {
          recent := recent[1..];
        }
        recent := recent + [span];
        spans := spans + [span];
      }
    }
  }
}
