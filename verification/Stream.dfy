/** The server-side telemetry stream: pop from a hub subscription, keep one sample in `decimate`,
    filter its metrics, write it to the client. */
module Stream {
  import opened FanOut
  import opened FanOutRuns
  import opened HubRuns

  datatype Metric = Metric(metricId: string, value: real, unit: string)
  datatype Sample = Sample(timestampMs: int, metrics: seq<Metric>)

  // ---------------------------------------------------------------- conversion

  /** The metrics a filter lets through, in order; an empty filter keeps all. */
  function Filtered(metrics: seq<Metric>, filter: set<string>): (out: seq<Metric>)
    ensures filter == {} ==> out == metrics
    ensures forall i :: 0 <= i < |out| ==> out[i] in metrics && (filter == {} || out[i].metricId in filter)
    ensures forall i :: 0 <= i < |metrics| && metrics[i].metricId in filter ==> metrics[i] in out
    ensures |out| <= |metrics|
  {
    if metrics == [] then []
    else
      var n := |metrics| - 1;
      Filtered(metrics[..n], filter)
      + (if filter != {} && metrics[n].metricId !in filter then [] else [metrics[n]])
  }

  predicate Passes(metric: Metric, filter: set<string>) { filter == {} || metric.metricId in filter }

  /** `out` are the metrics that pass, as often and in the order they came. */
  ghost predicate Picks(metrics: seq<Metric>, out: seq<Metric>, at: seq<nat>, filter: set<string>) {
    && |at| == |out|
    && (forall k :: 0 <= k < |at| ==> at[k] < |metrics| && out[k] == metrics[at[k]])
    && (forall j, k :: 0 <= j < k < |at| ==> at[j] < at[k])
    && (forall i :: 0 <= i < |metrics| ==> (Passes(metrics[i], filter) <==> i in at))
  }

  lemma PicksNext(metrics: seq<Metric>, out: seq<Metric>, at: seq<nat>, filter: set<string>, m: Metric)
    requires Picks(metrics, out, at, filter)
    ensures Passes(m, filter) ==> Picks(metrics + [m], out + [m], at + [|metrics|], filter)
    ensures !Passes(m, filter) ==> Picks(metrics + [m], out, at, filter)
  {
    var all, at' := metrics + [m], at + [|metrics|];
    assert forall k :: 0 <= k < |at| ==> at'[k] == at[k];
    assert forall i: nat :: i in at' <==> i in at || i == |metrics|;
    assert |metrics| !in at;
    forall i | 0 <= i < |metrics| ensures all[i] == metrics[i] {}
  }

  lemma {:induction false} FilteredInOrder(metrics: seq<Metric>, filter: set<string>) returns (at: seq<nat>)
    ensures Picks(metrics, Filtered(metrics, filter), at, filter)
  {
    at := [];
    if metrics != [] {
      var n := |metrics| - 1;
      var before := FilteredInOrder(metrics[..n], filter);
      PicksNext(metrics[..n], Filtered(metrics[..n], filter), before, filter, metrics[n]);
      assert metrics == metrics[..n] + [metrics[n]];
      at := if Passes(metrics[n], filter) then before + [n] else before;
    }
  }

  method ToProto(sample: Sample, filter: set<string>) returns (out: Sample)
    ensures out == sample.(metrics := Filtered(sample.metrics, filter))
  {
    out := Sample(sample.timestampMs, []);
    for i := 0 to |sample.metrics|
      invariant out == Sample(sample.timestampMs, Filtered(sample.metrics[..i], filter))
    {
      var metric := sample.metrics[i];
      assert sample.metrics[..i + 1][..i] == sample.metrics[..i];
      if filter != {} && metric.metricId !in filter {
        continue;
      }
      out := out.(metrics := out.metrics + [metric]);
    }
    assert sample.metrics[..|sample.metrics|] == sample.metrics;
  }

  // ---------------------------------------------------------------- decimation

  /** `std::lround` on a positive argument: halves round away from zero. */
  function RoundPositive(x: real): int { (x + 0.5).Floor }

  const INT_MAX: int := 0x7fff_ffff

  /** The rate is honoured only inside (0, 1). `beyond` is what lround and the cast make of a reciprocal
      that fits no int. */
  function Decimate(hz: real, beyond: int): (d: int)
    ensures d >= 1
  {
    if 0.0 < hz < 1.0 then
      var rounded := RoundPositive(1.0 / hz);
      var d := if rounded <= INT_MAX then rounded else beyond;
      if d < 1 then 1 else d
    else 1
  }

  lemma ReciprocalAboveOne(hz: real)
    requires 0.0 < hz < 1.0
    ensures 1.0 / hz > 1.0 && (1.0 / hz) * hz == 1.0
  {
  }

  /** One sample in d approximates the requested rate as well as an integer can: the period d seconds
      differs from 1/hz by at most half a second. */
  lemma DecimationIsNearest(hz: real, beyond: int)
    requires 0.0 < hz < 1.0 && RoundPositive(1.0 / hz) < 0x8000_0000
    ensures var d := Decimate(hz, beyond) as real;
            -hz / 2.0 <= d * hz - 1.0 <= hz / 2.0
  {
    ReciprocalAboveOne(hz);
    var r := 1.0 / hz;
    var d := Decimate(hz, beyond) as real;
    assert -0.5 <= d - r <= 0.5;
    Scale(d - r, hz);
    Distribute(d, r, hz);
  }

  lemma Distribute(d: real, r: real, hz: real)
    ensures (d - r) * hz == d * hz - r * hz
  {
  }

  lemma Scale(e: real, hz: real)
    requires hz > 0.0 && -0.5 <= e <= 0.5
    ensures -0.5 * hz <= e * hz <= 0.5 * hz
  {
    assert (0.5 - e) * hz >= 0.0;
    assert (e + 0.5) * hz >= 0.0;
  }

  // ---------------------------------------------------------------- the loop

  /** One turn of the loop before the call is cancelled: the pop timed out, or it delivered a sample
      that the client, if it is written to, takes or not. */
  datatype Turn = Timeout | Delivered(sample: Sample, taken: bool)

  /** The samples a list of turns delivers. */
  function Samples(turns: seq<Turn>): seq<Sample> {
    if turns == [] then []
    else
      var n := |turns| - 1;
      Samples(turns[..n]) + (if turns[n].Timeout? then [] else [turns[n].sample])
  }

  lemma Multiples(n: int, d: nat)
    ensures n >= 1 ==> n * d >= d
    ensures n <= -1 ==> n * d + d <= 0
  {
    if n >= 1 { assert (n - 1) * d >= 0; }
    if n <= -1 { assert (-n - 1) * d >= 0; }
  }

  /** `index % d == 0` exactly when index is the next multiple of d not yet written. */
  lemma NextMultiple(x: nat, q: nat, d: nat)
    requires d >= 1 && q * d - d < x <= q * d
    ensures x % d == 0 <==> x == q * d
  {
    var p, r := x / d, x % d;
    assert x == p * d + r;
    assert (p - q) * d == p * d - q * d;
    Multiples(p - q, d);
  }

  lemma MultipleBelow(k: nat, q: nat, d: nat)
    requires k < q && d >= 1
    ensures k * d <= q * d - d
  {
    var more := q - 1 - k;
    if more >= 1 { Multiples(more, d); }
    assert more * d == q * d - d - k * d;
  }

  /** `written` is what a client gets from `popped`: the samples at 0, d, 2d, ..., filtered. All the
      due ones, unless the client went away, in which case only the last popped is missing. */
  ghost predicate Decimated(popped: seq<Sample>, written: seq<Sample>, d: nat, filter: set<string>, gone: bool) {
    && d >= 1
    && (forall k :: 0 <= k < |written| ==>
          && k * d < |popped|
          && written[k] == popped[k * d].(metrics := Filtered(popped[k * d].metrics, filter)))
    && (if gone then |written| * d == |popped| - 1
        else |written| * d - d < |popped| <= |written| * d)
  }

  /** One more sample popped: skipped unless its index is due. */
  lemma DecimatedNext(popped: seq<Sample>, written: seq<Sample>, d: nat, filter: set<string>, sample: Sample)
    requires Decimated(popped, written, d, filter, false)
    ensures if |popped| % d != 0 then Decimated(popped + [sample], written, d, filter, false)
            else && Decimated(popped + [sample], written, d, filter, true)
                 && Decimated(popped + [sample],
                              written + [sample.(metrics := Filtered(sample.metrics, filter))], d, filter, false)
  {
    var q := |written|;
    NextMultiple(|popped|, q, d);
    assert (q + 1) * d == q * d + d;
  }

  /** What the loop has popped and written, and whether the client is gone. */
  datatype Served = Served(popped: seq<Sample>, written: seq<Sample>, gone: bool)

  /** The loop after these turns: once a write fails it takes no more. */
  function Serve(turns: seq<Turn>, d: nat, filter: set<string>): (r: Served)
    requires d >= 1
  {
    if turns == [] then Served([], [], false)
    else
      var n := |turns| - 1;
      var before := Serve(turns[..n], d, filter);
      if before.gone || turns[n].Timeout? then before
      else
        var popped := before.popped + [turns[n].sample];
        if |before.popped| % d != 0 then before.(popped := popped)
        else if !turns[n].taken then Served(popped, before.written, true)
        else Served(popped, before.written + [turns[n].sample.(metrics := Filtered(turns[n].sample.metrics, filter))], false)
  }

  /** Of the samples delivered, all unless the client went away, those at 0, d, 2d, ... are written. */
  lemma {:induction false} ServeDecimates(turns: seq<Turn>, d: nat, filter: set<string>)
    requires d >= 1
    ensures var r := Serve(turns, d, filter);
            && r.popped <= Samples(turns) && (!r.gone ==> r.popped == Samples(turns))
            && Decimated(r.popped, r.written, d, filter, r.gone)
  {
    if turns != [] {
      var n := |turns| - 1;
      ServeDecimates(turns[..n], d, filter);
      var before := Serve(turns[..n], d, filter);
      if !before.gone && turns[n].Delivered? {
        DecimatedNext(before.popped, before.written, d, filter, turns[n].sample);
      }
    }
  }

  /** Whether the client takes the n-th sample delivered, if it is written to. */
  function Taken(turns: seq<Turn>): (taken: seq<bool>)
    ensures |taken| == |Samples(turns)|
  {
    if turns == [] then []
    else
      var n := |turns| - 1;
      Taken(turns[..n]) + (if turns[n].Timeout? then [] else [turns[n].taken])
  }

  /** The k-th sample delivered is due, and refused. */
  predicate RefusedAt(turns: seq<Turn>, d: nat, k: nat) {
    d >= 1 && k < |Taken(turns)| && k % d == 0 && !Taken(turns)[k]
  }

  /** What the last turn adds to the refusals. */
  lemma RefusedNext(turns: seq<Turn>, d: nat)
    requires turns != [] && d >= 1
    ensures var init, last := turns[..|turns| - 1], turns[|turns| - 1];
            var m := |Taken(init)|;
            && |Taken(turns)| == m + (if last.Timeout? then 0 else 1)
            && (forall k :: 0 <= k < m ==> (RefusedAt(turns, d, k) <==> RefusedAt(init, d, k)))
            && (last.Delivered? ==> (RefusedAt(turns, d, m) <==> m % d == 0 && !last.taken))
  {
  }

  /** The stream ended at the first refusal of a sample that was due, or there was none. */
  ghost predicate EndedByRefusal(turns: seq<Turn>, d: nat, r: Served) {
    && (!r.gone ==> forall k :: 0 <= k < |Taken(turns)| ==> !RefusedAt(turns, d, k))
    && (r.gone ==> && 0 < |r.popped| <= |Taken(turns)| && RefusedAt(turns, d, |r.popped| - 1)
                   && forall k :: 0 <= k < |r.popped| - 1 ==> !RefusedAt(turns, d, k))
  }

  lemma {:induction false} GoneIsRefused(turns: seq<Turn>, d: nat, filter: set<string>)
    requires d >= 1
    ensures EndedByRefusal(turns, d, Serve(turns, d, filter))
  {
    if turns != [] {
      var init := turns[..|turns| - 1];
      GoneIsRefused(init, d, filter);
      assert !Serve(init, d, filter).gone ==> |Serve(init, d, filter).popped| == |Taken(init)| by {
        ServeDecimates(init, d, filter);
      }
      RefusedNext(turns, d);
    }
  }

  /** The client is gone if and only if it refused a sample that was due; the first such one is the last
      popped. */
  lemma GoneIffRefused(turns: seq<Turn>, d: nat, filter: set<string>)
    requires d >= 1
    ensures var r := Serve(turns, d, filter);
            && (r.gone <==> exists k :: 0 <= k < |Taken(turns)| && RefusedAt(turns, d, k))
            && (r.gone ==> && r.popped != [] && RefusedAt(turns, d, |r.popped| - 1)
                           && forall k :: 0 <= k < |r.popped| - 1 ==> !RefusedAt(turns, d, k))
  {
    GoneIsRefused(turns, d, filter);
  }

  /** A rate outside (0, 1) is the full rate: a client that takes everything is written everything. */
  lemma FullRateWritesAll(turns: seq<Turn>, hz: real, beyond: int, filter: set<string>)
    requires !(0.0 < hz < 1.0) && forall k :: 0 <= k < |Taken(turns)| ==> Taken(turns)[k]
    ensures var r := Serve(turns, Decimate(hz, beyond), filter);
            && !r.gone && |r.written| == |Samples(turns)|
            && forall k :: 0 <= k < |r.written| ==>
                 r.written[k] == Samples(turns)[k].(metrics := Filtered(Samples(turns)[k].metrics, filter))
  {
    GoneIffRefused(turns, 1, filter);
    ServeDecimates(turns, 1, filter);
    var r := Serve(turns, 1, filter);
    forall k | 0 <= k < |r.written|
      ensures r.written[k] == Samples(turns)[k].(metrics := Filtered(Samples(turns)[k].metrics, filter))
    {
      assert k * 1 == k;
    }
  }

  lemma {:induction false} GoneStays(turns: seq<Turn>, n: nat, d: nat, filter: set<string>)
    requires n <= |turns| && d >= 1 && Serve(turns[..n], d, filter).gone
    ensures Serve(turns, d, filter) == Serve(turns[..n], d, filter)
  {
    if n == |turns| {
      assert turns[..n] == turns;
    } else {
      assert turns[..|turns| - 1][..n] == turns[..n];
      GoneStays(turns[..|turns| - 1], n, d, filter);
    }
  }

  method Subscribe(turns: seq<Turn>, hz: real, beyond: int, filter: set<string>)
      returns (popped: seq<Sample>, written: seq<Sample>, gone: bool)
    ensures Served(popped, written, gone) == Serve(turns, Decimate(hz, beyond), filter)
    ensures popped <= Samples(turns) && (!gone ==> popped == Samples(turns))
    ensures Decimated(popped, written, Decimate(hz, beyond), filter, gone)
  {
    var decimate := Decimate(hz, beyond);
    popped, written, gone := [], [], false;
    var index := 0;
    ServeDecimates(turns, decimate, filter);
    for i := 0 to |turns|
      invariant !gone && index == |popped|
      invariant Served(popped, written, gone) == Serve(turns[..i], decimate, filter)
    {
      assert turns[..i + 1][..i] == turns[..i];
      if turns[i].Timeout? {
        continue;
      }
      var sample := turns[i].sample;
      popped := popped + [sample];
      index := index + 1;
      if (index - 1) % decimate != 0 {
        continue;
      }
      var message := ToProto(sample, filter);
      if !turns[i].taken {
        gone := true;
        GoneStays(turns, i + 1, decimate, filter);
        return;
      }
      written := written + [message];
    }
    assert turns[..|turns|] == turns;
  }

  /** `written` is a strictly in-order, duplicate-free selection of the log, at the positions `at`,
      filtered. */
  ghost predicate Selected(written: seq<Sample>, at: seq<nat>, log: seq<Sample>, filter: set<string>) {
    && |at| == |written|
    && (forall k, m :: 0 <= k < m < |at| ==> at[k] < at[m])
    && forall k :: 0 <= k < |at| ==>
         && at[k] < |log|
         && written[k] == log[at[k]].(metrics := Filtered(log[at[k]].metrics, filter))
  }

  lemma DecimatedIsSelected(popped: seq<Sample>, all: seq<nat>, log: seq<Sample>,
                            written: seq<Sample>, d: nat, filter: set<string>, gone: bool)
      returns (at: seq<nat>)
    requires AtPositions(popped, all, log) && Decimated(popped, written, d, filter, gone)
    ensures Selected(written, at, log, filter)
  {
    at := seq(|written|, k requires 0 <= k < |written| => all[k * d]);
    forall k, m | 0 <= k < m < |at|
      ensures at[k] < at[m]
    {
      MultipleBelow(k, m, d);
    }
  }

  /** End to end: while the stream's pops are those of its hub subscription, what the loop writes for a
      requested rate is a selection of the published log. */
  lemma StreamFromLog(capacity: nat, hubs: seq<Hub<Sample>>, acts: seq<Action<Sample>>, id: nat, i: nat, j: nat,
                      turns: seq<Turn>, hz: real, beyond: int, filter: set<string>)
      returns (at: seq<nat>)
    requires HubRun(hubs, acts) && hubs[0] == StartHub(capacity)
    requires i < j <= |acts| && acts[i] == FanOut.Subscribe(id)
    requires Samples(turns) == Popped(Fans(hubs), acts, id, i + 1, j)
    ensures Selected(Serve(turns, Decimate(hz, beyond), filter).written, at, Log(hubs[j]), filter)
  {
    var d, log := Decimate(hz, beyond), Log(hubs[j]);
    var r := Serve(turns, d, filter);
    ServeDecimates(turns, d, filter);
    var all := PoppedFromLog(capacity, hubs, acts, id, i, j);
    PrefixPositions(Samples(turns), all, log, |r.popped|);
    at := DecimatedIsSelected(r.popped, all[..|r.popped|], log, r.written, d, filter, r.gone);
  }

  lemma PrefixPositions(samples: seq<Sample>, at: seq<nat>, log: seq<Sample>, n: nat)
    requires AtPositions(samples, at, log) && n <= |samples|
    ensures AtPositions(samples[..n], at[..n], log)
  {
  }
}
