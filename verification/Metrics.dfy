/** The metrics aspect (aspect-std/src/metrics.rs). */
module Metrics {
  import opened Common

  datatype MetricsState = MetricsState(counters: map<string, nat>, histograms: map<string, seq<real>>)

  function CountOf(s: MetricsState, f: string): nat { if f in s.counters then s.counters[f] else 0 }

  function HistogramOf(s: MetricsState, f: string): seq<real> { if f in s.histograms then s.histograms[f] else [] }

  /** Before the call: one more call of f. */
  function Started(s: MetricsState, f: string): MetricsState {
    s.(counters := s.counters[f := CountOf(s, f) + 1])
  }

  /** After the call, whatever its outcome: one more duration. */
  function Finished(s: MetricsState, f: string, duration: real): MetricsState {
    s.(histograms := s.histograms[f := HistogramOf(s, f) + [duration]])
  }

  /** The metrics object; every clone of the aspect shares this one state. */
  class MetricsAspect {
    var counters: map<string, nat>
    var histograms: map<string, seq<real>>

    function State(): MetricsState
      reads this
    {
      MetricsState(counters, histograms)
    }

    constructor ()
      ensures State() == MetricsState(map[], map[])
    {
      counters, histograms := map[], map[];
    }

    method GetCount(f: string) returns (n: nat)
      ensures n == CountOf(State(), f)
    {
      n := if f in counters then counters[f] else 0;
    }

    method GetHistogram(f: string) returns (h: seq<real>)
      ensures h == HistogramOf(State(), f)
    {
      h := if f in histograms then histograms[f] else [];
    }

    method Clear()
      modifies this
      ensures State() == MetricsState(map[], map[])
    {
      counters, histograms := map[], map[];
    }

    /** One more call and one more duration for f, nothing for any other function. */
    method Around<T>(f: string, start: Instant, end: Instant, proceed: () -> T) returns (r: T)
      modifies this
      ensures forall g :: CountOf(State(), g) == CountOf(old(State()), g) + if g == f then 1 else 0
      ensures forall g :: HistogramOf(State(), g) == HistogramOf(old(State()), g) + if g == f then [DurationSince(end, start)] else []
      ensures State() == Finished(Started(old(State()), f), f, DurationSince(end, start))
      ensures r == proceed()
    {
      if f !in counters {
        counters := counters[f := 0];
      }
      counters := counters[f := counters[f] + 1];
      assert counters == Started(old(State()), f).counters;
      r := proceed();
      if f !in histograms {
        histograms := histograms[f := []];
      }
      histograms := histograms[f := histograms[f] + [DurationSince(end, start)]];
      assert histograms == Finished(Started(old(State()), f), f, DurationSince(end, start)).histograms;
      OneMore(old(State()), f, DurationSince(end, start));
    }
  }

  lemma OneMore(s: MetricsState, f: string, duration: real)
    ensures
      var s' := Finished(Started(s, f), f, duration);
      && (forall g :: CountOf(s', g) == CountOf(s, g) + if g == f then 1 else 0)
      && (forall g :: HistogramOf(s', g) == HistogramOf(s, g) + if g == f then [duration] else [])
  {
    assert forall g :: HistogramOf(s, g) + [] == HistogramOf(s, g);
  }

  // ------------------------------------------------------------------ runs over many functions

  /** One call through the aspect. */
  datatype Measured = Measured(function_: string, start: Instant, end: Instant)

  function Measure(s: MetricsState, c: Measured): MetricsState {
    Finished(Started(s, c.function_), c.function_, DurationSince(c.end, c.start))
  }

  function MeasureAll(s: MetricsState, calls: seq<Measured>): MetricsState {
    if |calls| == 0 then s else Measure(MeasureAll(s, calls[..|calls| - 1]), calls[|calls| - 1])
  }

  /** The durations of the calls of g, in order. */
  function DurationsOf(calls: seq<Measured>, g: string): seq<real> {
    if |calls| == 0 then []
    else
      var last := calls[|calls| - 1];
      DurationsOf(calls[..|calls| - 1], g)
      + if last.function_ == g then [if last.start <= last.end then last.end - last.start else 0.0] else []
  }

  /** The positions of the calls of g. */
  function CallsOf(calls: seq<Measured>, g: string): set<nat> { set i: nat | i < |calls| && calls[i].function_ == g }

  lemma CallsOfStep(calls: seq<Measured>, g: string)
    requires |calls| > 0
    ensures
      var n := |calls| - 1;
      |CallsOf(calls, g)| == |CallsOf(calls[..n], g)| + if calls[n].function_ == g then 1 else 0
  {
    var n := |calls| - 1;
    assert CallsOf(calls, g) == CallsOf(calls[..n], g) + if calls[n].function_ == g then {n} else {};
  }

  lemma {:induction false} DurationsAreCalls(calls: seq<Measured>, g: string)
    ensures |DurationsOf(calls, g)| == |CallsOf(calls, g)|
  {
    if |calls| > 0 {
      DurationsAreCalls(calls[..|calls| - 1], g);
      CallsOfStep(calls, g);
    }
  }

  lemma {:induction false} DurationsAreKept(calls: seq<Measured>, g: string)
    ensures
      var s := MeasureAll(MetricsState(map[], map[]), calls);
      HistogramOf(s, g) == DurationsOf(calls, g) && CountOf(s, g) == |DurationsOf(calls, g)|
  {
    if |calls| > 0 {
      var n := |calls| - 1;
      DurationsAreKept(calls[..n], g);
      var last := calls[n];
      OneMore(MeasureAll(MetricsState(map[], map[]), calls[..n]), last.function_, DurationSince(last.end, last.start));
    }
  }

  /** Over any calls of any functions: the histogram of g is the durations of its calls in order, its count their number. */
  lemma EachFunctionIsMeasured(calls: seq<Measured>, g: string)
    ensures
      var s := MeasureAll(MetricsState(map[], map[]), calls);
      && HistogramOf(s, g) == DurationsOf(calls, g)
      && CountOf(s, g) == |CallsOf(calls, g)|
  {
    DurationsAreKept(calls, g);
    DurationsAreCalls(calls, g);
  }
}
