/** The PDH collector: counters found by expanding a path, and their values summed per metric. */
module Counters {
  import opened Text
  import opened PdhPaths
  import opened Stream

  datatype Spec = Spec(metricId: string, unit: string, scale: real) {
    function Scaled(total: real): real { total * scale }
  }
  datatype Counter = Counter(handle: nat, spec: nat)

  // ---------------------------------------------------------------- adding counters

  /** A counter, if the call has given a handle. */
  function Opened(reply: Option<nat>, spec: nat): seq<Counter> {
    match reply case None => [] case Some(handle) => [Counter(handle, spec)]
  }

  /** The counters opened for the first n paths of a list; `answer(k, path)` is the foreign call's answer
      to the k-th request. */
  function FirstAdded(paths: seq<string>, n: nat, spec: nat, answer: (nat, string) -> Option<nat>): seq<Counter>
    requires n <= |paths|
  {
    if n == 0 then [] else FirstAdded(paths, n - 1, spec, answer) + Opened(answer(n - 1, paths[n - 1]), spec)
  }

  function Added(paths: seq<string>, spec: nat, answer: (nat, string) -> Option<nat>): seq<Counter> {
    FirstAdded(paths, |paths|, spec, answer)
  }

  /** The cursor of the wildcard walk stands before path k: it and the ones behind it follow, each with
      its NUL, and then one more NUL. */
  ghost predicate AtPath(buffer: string, p: nat, paths: seq<string>, k: nat)
    decreases |paths| - k
  {
    if k >= |paths| then k == |paths| && p < |buffer| && buffer[p] == NUL
    else && p < |buffer| && buffer[p] != NUL && CStringAt(buffer, p) == paths[k]
         && AtPath(buffer, p + |paths[k]| + 1, paths, k + 1)
  }

  lemma {:induction false} BlockIsWalked(buffer: string, p: nat, paths: seq<string>, k: nat, padding: string)
    requires k <= |paths| && Storable(paths[k..]) && Holds(buffer, p, paths[k..], padding)
    ensures AtPath(buffer, p, paths, k)
    decreases |paths| - k
  {
    BlockFront(buffer, p, paths[k..], padding);
    if k < |paths| {
      assert paths[k..][1..] == paths[k + 1..];
      StorableTail(paths[k..]);
      BlockRest(buffer, p, paths[k..], padding);
      BlockIsWalked(buffer, p + |paths[k]| + 1, paths, k + 1, padding);
    }
  }

  lemma AtStart(buffer: string, paths: seq<string>, padding: string)
    requires Storable(paths) && buffer == Block(paths) + padding
    ensures AtPath(buffer, 0, paths, 0)
  {
    assert buffer[0..] == buffer && paths[0..] == paths;
    BlockIsWalked(buffer, 0, paths, 0, padding);
  }

  lemma {:induction false} FirstAddedExactly(paths: seq<string>, n: nat, spec: nat, answer: (nat, string) -> Option<nat>, c: Counter)
    requires n <= |paths|
    ensures c in FirstAdded(paths, n, spec, answer)
            <==> c.spec == spec && exists k :: 0 <= k < n && answer(k, paths[k]) == Some(c.handle)
  {
    if n > 0 { FirstAddedExactly(paths, n - 1, spec, answer, c); }
  }

  /** Every path the call accepts gets its counter, once and in order. */
  lemma AddedExactly(paths: seq<string>, spec: nat, answer: (nat, string) -> Option<nat>, c: Counter)
    ensures c in Added(paths, spec, answer)
            <==> c.spec == spec && exists k :: 0 <= k < |paths| && answer(k, paths[k]) == Some(c.handle)
  {
    FirstAddedExactly(paths, |paths|, spec, answer, c);
  }

  /** The counters of the first paths come first. */
  lemma {:induction false} AddedInOrder(paths: seq<string>, i: nat, n: nat, spec: nat, answer: (nat, string) -> Option<nat>)
    requires i <= n <= |paths|
    ensures FirstAdded(paths, i, spec, answer) <= FirstAdded(paths, n, spec, answer)
  {
    if i < n { AddedInOrder(paths, i, n - 1, spec, answer); }
  }

  // ---------------------------------------------------------------- summing

  /** The counters of one spec whose value is valid now. */
  predicate Read(c: Counter, value: nat -> Option<real>, spec: nat) { c.spec == spec && value(c.handle).Some? }

  predicate Readable(counters: seq<Counter>, value: nat -> Option<real>, spec: nat) {
    exists k :: 0 <= k < |counters| && Read(counters[k], value, spec)
  }

  function Part(c: Counter, value: nat -> Option<real>, spec: nat): real {
    if Read(c, value, spec) then value(c.handle).value else 0.0
  }

  function Total(counters: seq<Counter>, value: nat -> Option<real>, spec: nat): real {
    if counters == [] then 0.0
    else
      var n := |counters| - 1;
      Total(counters[..n], value, spec) + Part(counters[n], value, spec)
  }

  /** Taking any one counter out of the sum. */
  lemma {:induction false} TotalWithout(counters: seq<Counter>, value: nat -> Option<real>, spec: nat, k: nat)
    requires k < |counters|
    ensures Total(counters, value, spec)
         == Total(counters[..k] + counters[k + 1..], value, spec) + Part(counters[k], value, spec)
  {
    var n := |counters| - 1;
    if k == n {
      assert counters[..k] + counters[k + 1..] == counters[..n];
    } else {
      TotalWithout(counters[..n], value, spec, k);
      assert (counters[..k] + counters[k + 1..])[..n - 1] == counters[..n][..k] + counters[..n][k + 1..];
    }
  }

  lemma Without<T>(s: seq<T>, k: nat)
    requires k < |s|
    ensures multiset(s) == multiset(s[..k] + s[k + 1..]) + multiset{s[k]}
  {
    assert s == s[..k] + [s[k]] + s[k + 1..];
  }

  lemma Cancel<T>(x: multiset<T>, y: multiset<T>, e: T)
    requires x + multiset{e} == y + multiset{e}
    ensures x == y
  {
    assert x == (x + multiset{e}) - multiset{e};
    assert y == (y + multiset{e}) - multiset{e};
  }

  /** The order in which wildcard instances were added does not matter to their sum. */
  lemma {:induction false} TotalOfPermuted(a: seq<Counter>, b: seq<Counter>, value: nat -> Option<real>, spec: nat)
    requires multiset(a) == multiset(b)
    ensures Total(a, value, spec) == Total(b, value, spec)
    decreases |a|
  {
    assert |a| == |multiset(a)| == |multiset(b)| == |b|;
    if a != [] {
      var n := |a| - 1;
      assert a == a[..n] + [a[n]];
      assert a[n] in multiset(b);
      var k :| 0 <= k < |b| && b[k] == a[n];
      var rest := b[..k] + b[k + 1..];
      Without(a, n);
      Without(b, k);
      assert a[..n] + a[n + 1..] == a[..n];
      Cancel(multiset(a[..n]), multiset(rest), a[n]);
      TotalOfPermuted(a[..n], rest, value, spec);
      TotalWithout(b, value, spec, k);
    }
  }

  /** The metric of spec i, if any of its counters could be read. */
  function MetricOf(spec: Spec, counters: seq<Counter>, value: nat -> Option<real>, i: nat): seq<Metric> {
    if Readable(counters, value, i) then [Metric(spec.metricId, spec.Scaled(Total(counters, value, i)), spec.unit)] else []
  }

  function Summed(specs: seq<Spec>, counters: seq<Counter>, value: nat -> Option<real>): seq<Metric> {
    if specs == [] then []
    else
      var n := |specs| - 1;
      Summed(specs[..n], counters, value) + MetricOf(specs[n], counters, value, n)
  }

  const AVAILABLE := "mem.available_mb"

  /** The last value given for the available memory. */
  function Available(metrics: seq<Metric>): Option<real> {
    if metrics == [] then None
    else
      var n := |metrics| - 1;
      if metrics[n].metricId == AVAILABLE then Some(metrics[n].value) else Available(metrics[..n])
  }

  /** With the machine's memory known, used and total memory are added. */
  function Memory(metrics: seq<Metric>, physical: Option<real>): seq<Metric> {
    if Available(metrics).Some? && physical.Some?
    then [Metric("mem.used_mb", physical.value - Available(metrics).value, "mb"),
          Metric("mem.total_mb", physical.value, "mb")]
    else []
  }

  lemma MetricIs(spec: Spec, counters: seq<Counter>, value: nat -> Option<real>, i: nat, total: real)
    requires Readable(counters, value, i) && total == Total(counters, value, i)
    ensures MetricOf(spec, counters, value, i) == [Metric(spec.metricId, spec.Scaled(total), spec.unit)]
  {
  }

  lemma SummedNext(specs: seq<Spec>, counters: seq<Counter>, value: nat -> Option<real>, i: nat)
    requires i < |specs|
    ensures Summed(specs[..i + 1], counters, value)
         == Summed(specs[..i], counters, value) + MetricOf(specs[i], counters, value, i)
  {
    assert specs[..i + 1][..i] == specs[..i];
  }

  lemma AvailableNext(metrics: seq<Metric>, m: Metric)
    ensures Available(metrics + [m]) == if m.metricId == AVAILABLE then Some(m.value) else Available(metrics)
  {
    assert (metrics + [m])[..|metrics|] == metrics;
  }

  /** The metrics of the first specs come first. */
  lemma {:induction false} SummedInOrder(specs: seq<Spec>, n: nat, counters: seq<Counter>, value: nat -> Option<real>)
    requires n <= |specs|
    ensures Summed(specs[..n], counters, value) <= Summed(specs, counters, value)
  {
    if n == |specs| {
      assert specs[..n] == specs;
    } else {
      var init := specs[..|specs| - 1];
      SummedInOrder(init, n, counters, value);
      assert init[..n] == specs[..n];
    }
  }

  /** The sum of the counters' values, each scaled. */
  function ScaledTotal(counters: seq<Counter>, value: nat -> Option<real>, spec: nat, scale: real): real {
    if counters == [] then 0.0
    else
      var n := |counters| - 1;
      ScaledTotal(counters[..n], value, spec, scale)
      + (if Read(counters[n], value, spec) then value(counters[n].handle).value * scale else 0.0)
  }

  lemma Times(a: real, b: real, scale: real)
    ensures (a + b) * scale == a * scale + b * scale && 0.0 * scale == 0.0
  {
  }

  /** A metric is the sum of its readable counters, each scaled into the metric's unit. */
  lemma {:induction false} ScaledIsSummed(spec: Spec, counters: seq<Counter>, value: nat -> Option<real>, i: nat)
    ensures spec.Scaled(Total(counters, value, i)) == ScaledTotal(counters, value, i, spec.scale)
  {
    if counters == [] {
      Times(0.0, 0.0, spec.scale);
    } else {
      var n := |counters| - 1;
      ScaledIsSummed(spec, counters[..n], value, i);
      Times(Total(counters[..n], value, i), Part(counters[n], value, i), spec.scale);
    }
  }

  lemma AvailableStep(specs: seq<Spec>, counters: seq<Counter>, value: nat -> Option<real>)
    requires specs != []
    ensures var n := |specs| - 1;
            Available(Summed(specs, counters, value))
            == if Readable(counters, value, n) && specs[n].metricId == "mem.available_mb"
               then Some(specs[n].Scaled(Total(counters, value, n)))
               else Available(Summed(specs[..n], counters, value))
  {
    var n := |specs| - 1;
    var before := Summed(specs[..n], counters, value);
    SummedNext(specs, counters, value, n);
    assert specs[..n + 1] == specs;
    if Readable(counters, value, n) {
      MetricIs(specs[n], counters, value, n, Total(counters, value, n));
      AvailableNext(before, MetricOf(specs[n], counters, value, n)[0]);
    } else {
      assert before + MetricOf(specs[n], counters, value, n) == before;
    }
  }

  lemma {:induction false} NotAvailable(specs: seq<Spec>, counters: seq<Counter>, value: nat -> Option<real>)
    requires forall j :: 0 <= j < |specs| ==> specs[j].metricId != "mem.available_mb"
    ensures Available(Summed(specs, counters, value)) == None
  {
    if specs != [] {
      var n := |specs| - 1;
      NotAvailable(specs[..n], counters, value);
      AvailableStep(specs, counters, value);
    }
  }

  lemma {:induction false} AvailableIs(specs: seq<Spec>, counters: seq<Counter>, value: nat -> Option<real>, i: nat)
    requires i < |specs| && forall j :: 0 <= j < |specs| ==> (specs[j].metricId == "mem.available_mb" <==> j == i)
    ensures Available(Summed(specs, counters, value))
         == if Readable(counters, value, i) then Some(specs[i].Scaled(Total(counters, value, i))) else None
  {
    var n := |specs| - 1;
    if i == n {
      NotAvailable(specs[..n], counters, value);
    } else {
      AvailableIs(specs[..n], counters, value, i);
    }
    AvailableStep(specs, counters, value);
  }

  /** With one spec for the available memory, used and total memory are reported exactly when it can be
      read and the machine's memory is known; used and available memory add up to the total. */
  lemma MemoryAddsUp(specs: seq<Spec>, counters: seq<Counter>, value: nat -> Option<real>, i: nat, physical: Option<real>)
    requires i < |specs| && forall j :: 0 <= j < |specs| ==> (specs[j].metricId == "mem.available_mb" <==> j == i)
    ensures var memory := Memory(Summed(specs, counters, value), physical);
            if Readable(counters, value, i) && physical.Some?
            then && |memory| == 2 && memory[0].metricId == "mem.used_mb" && memory[1].metricId == "mem.total_mb"
                 && memory[0].unit == memory[1].unit == "mb"
                 && memory[0].value + ScaledTotal(counters, value, i, specs[i].scale) == memory[1].value == physical.value
            else memory == []
  {
    AvailableIs(specs, counters, value, i);
    ScaledIsSummed(specs[i], counters, value, i);
  }

  class PdhCollector {
    const specs: seq<Spec>
    var counters: seq<Counter>

    constructor (specs: seq<Spec>)
      ensures this.specs == specs && counters == []
    {
      this.specs, counters := specs, [];
    }

    /** The wildcard walk over the buffer the expansion filled with `paths`; None when it failed. */
    method AddExpanded(expansion: Option<string>, spec: nat, answer: (nat, string) -> Option<nat>,
                       ghost paths: seq<string>, ghost padding: string)
        returns (added: bool)
      requires Storable(paths) && (expansion.Some? ==> expansion.value == Block(paths) + padding)
      modifies this
      ensures counters == old(counters) + (if expansion.Some? then Added(paths, spec, answer) else [])
      ensures added <==> |counters| > |old(counters)|
    {
      if expansion.None? {
        return false;
      }
      AtStart(expansion.value, paths, padding);
      added := Walk(expansion.value, spec, answer, paths);
    }

    method Walk(buffer: string, spec: nat, answer: (nat, string) -> Option<nat>, ghost paths: seq<string>)
        returns (added: bool)
      requires AtPath(buffer, 0, paths, 0)
      modifies this
      ensures counters == old(counters) + Added(paths, spec, answer)
      ensures added <==> |counters| > |old(counters)|
    {
      var p: nat, asked: nat := 0, 0;
      added := false;
      while buffer[p] != NUL
        invariant p < |buffer| && asked <= |paths| && AtPath(buffer, p, paths, asked)
        invariant counters == old(counters) + FirstAdded(paths, asked, spec, answer)
        invariant added <==> |counters| > |old(counters)|
        decreases |paths| - asked
      {
        var expanded := CStringAt(buffer, p);
        match answer(asked, expanded) {
          case None =>
          case Some(handle) =>
            counters := counters + [Counter(handle, spec)];
            added := true;
        }
        p, asked := p + |expanded| + 1, asked + 1;
      }
    }

    method AddCounter(englishPath: string, localized: string -> string, expansion: Option<string>, spec: nat,
                      answer: (nat, string) -> Option<nat>, ghost paths: seq<string>, ghost padding: string)
        returns (added: bool)
      requires Storable(paths) && (expansion.Some? ==> expansion.value == Block(paths) + padding)
      modifies this
      ensures var path := LocalizePath(englishPath, localized);
              counters == old(counters) + (if !Wildcard(path) then Added([path], spec, answer)
                                           else if expansion.Some? then Added(paths, spec, answer) else [])
      ensures added <==> |counters| > |old(counters)|
    {
      var path := LocalizePath(englishPath, localized);
      if Wildcard(path) {
        added := AddExpanded(expansion, spec, answer, paths, padding);
        return;
      }
      assert Added([path], spec, answer) == FirstAdded([path], 0, spec, answer) + Opened(answer(0, path), spec);
      match answer(0, path) {
        case None => return false;
        case Some(handle) =>
          counters := counters + [Counter(handle, spec)];
          return true;
      }
    }

    /** `value` is what each handle reads at this tick, None when it is not valid data. */
    method Sum(value: nat -> Option<real>) returns (sums: map<nat, real>)
      ensures forall i: nat :: i in sums <==> Readable(counters, value, i)
      ensures forall i: nat :: i in sums ==> sums[i] == Total(counters, value, i)
    {
      sums := map[];
      for k := 0 to |counters|
        invariant forall i: nat :: i in sums <==> Readable(counters[..k], value, i)
        invariant forall i: nat :: (if i in sums then sums[i] else 0.0) == Total(counters[..k], value, i)
      {
        var c := counters[k];
        forall i: nat
          ensures Readable(counters[..k + 1], value, i) <==> Readable(counters[..k], value, i) || Read(c, value, i)
          ensures Total(counters[..k + 1], value, i) == Total(counters[..k], value, i) + Part(c, value, i)
        {
          OneMoreCounter(counters, k, value, i);
        }
        match value(c.handle) {
          case None =>
          case Some(v) => sums := sums[c.spec := (if c.spec in sums then sums[c.spec] else 0.0) + v];
        }
      }
      assert counters[..|counters|] == counters;
    }

    method Collect(queried: bool, value: nat -> Option<real>, physical: Option<real>) returns (out: seq<Metric>)
      ensures var metrics := Summed(specs, counters, value);
              out == if counters == [] || !queried then [] else metrics + Memory(metrics, physical)
    {
      out := [];
      if counters == [] || !queried {
        return;
      }
      var sums := Sum(value);
      var available: Option<real> := None;
      for i := 0 to |specs|
        invariant out == Summed(specs[..i], counters, value)
        invariant available == Available(out)
      {
        SummedNext(specs, counters, value, i);
        if i !in sums {
          assert MetricOf(specs[i], counters, value, i) == [];
          continue;
        }
        var scaled := specs[i].Scaled(sums[i]);
        var metric := Metric(specs[i].metricId, scaled, specs[i].unit);
        AvailableNext(out, metric);
        if metric.metricId == AVAILABLE {
          available := Some(scaled);
        }
        MetricIs(specs[i], counters, value, i, sums[i]);
        out := out + [metric];
      }
      assert specs[..|specs|] == specs;
      if available.Some? && physical.Some? {
        out := out + [Metric("mem.used_mb", physical.value - available.value, "mb"),
                      Metric("mem.total_mb", physical.value, "mb")];
      }
    }
  }

  lemma OneMoreCounter(counters: seq<Counter>, k: nat, value: nat -> Option<real>, i: nat)
    requires k < |counters|
    ensures Readable(counters[..k + 1], value, i) <==> Readable(counters[..k], value, i) || Read(counters[k], value, i)
    ensures Total(counters[..k + 1], value, i) == Total(counters[..k], value, i) + Part(counters[k], value, i)
  {
    var next := counters[..k + 1];
    assert next[..k] == counters[..k] && next[k] == counters[k];
    if Readable(counters[..k], value, i) {
      var j :| 0 <= j < k && Read(counters[..k][j], value, i);
      assert Read(next[j], value, i);
    }
    if Readable(next, value, i) {
      var j :| 0 <= j < k + 1 && Read(next[j], value, i);
      if j < k { assert Read(counters[..k][j], value, i); }
    }
  }

  /** A metric is reported exactly when one of its counters can be read, with the scaled sum of those
      that can; counters that cannot be read cost nothing else. */
  lemma {:induction false} SummedExactly(specs: seq<Spec>, counters: seq<Counter>, value: nat -> Option<real>, metric: Metric)
    ensures metric in Summed(specs, counters, value)
            <==> exists i :: 0 <= i < |specs| && metric in MetricOf(specs[i], counters, value, i)
  {
    if specs != [] {
      var n := |specs| - 1;
      var init := specs[..n];
      SummedExactly(init, counters, value, metric);
      assert forall i :: 0 <= i < n ==> init[i] == specs[i];
    }
  }
}
