/** The tick loop of `CollectorPipeline`: poll every collector, emit one sample, sleep out the interval. */
module Pipeline {
  import opened Stream

  const NS_PER_MS: nat := 1_000_000

  // ---------------------------------------------------------------- one tick

  /** What polling one collector comes to. */
  datatype Polled = Unavailable | Threw | Gave(metrics: seq<Metric>)

  function Merged(polled: seq<Polled>): seq<Metric> {
    if polled == [] then []
    else
      var n := |polled| - 1;
      Merged(polled[..n]) + (if polled[n].Gave? then polled[n].metrics else [])
  }

  method Collect(polled: seq<Polled>) returns (metrics: seq<Metric>)
    ensures metrics == Merged(polled)
  {
    metrics := [];
    for i := 0 to |polled|
      invariant metrics == Merged(polled[..i])
    {
      assert polled[..i + 1][..i] == polled[..i];
      if polled[i].Unavailable? {
        continue;
      }
      if polled[i].Gave? {
        metrics := metrics + polled[i].metrics;
      }
    }
    assert polled[..|polled|] == polled;
  }

  /** A collector that is unavailable or throws costs the tick nothing but its own metrics: each
      metric of a sample was given by some collector, and every given one is in it. */
  lemma {:induction false} MergedExactly(polled: seq<Polled>, metric: Metric)
    ensures metric in Merged(polled) <==> exists i :: 0 <= i < |polled| && polled[i].Gave? && metric in polled[i].metrics
  {
    if polled != [] {
      var n := |polled| - 1;
      MergedExactly(polled[..n], metric);
    }
  }

  function Given(polled: Polled): seq<Metric> { if polled.Gave? then polled.metrics else [] }

  lemma MergedNext(polled: seq<Polled>, next: Polled)
    ensures Merged(polled + [next]) == Merged(polled) + Given(next)
  {
    assert (polled + [next])[..|polled|] == polled;
  }

  /** Collectors are polled in turn and their metrics kept in that order: polling some and then others
      merges the metrics of the first before those of the others, each collector's as it gave them. */
  lemma {:induction false} MergedInOrder(first: seq<Polled>, others: seq<Polled>)
    ensures Merged(first + others) == Merged(first) + Merged(others)
    ensures |others| == 1 ==> Merged(others) == Given(others[0])
    decreases |others|
  {
    if others == [] {
      assert first + others == first;
    } else {
      var init, last := others[..|others| - 1], others[|others| - 1];
      assert others == init + [last] && first + others == (first + init) + [last];
      calc {
        Merged(first + others);
        { MergedNext(first + init, last); }
        Merged(first + init) + Given(last);
        { MergedInOrder(first, init); }
        Merged(first) + Merged(init) + Given(last);
        Merged(first) + (Merged(init) + Given(last));
        { MergedNext(init, last); }
        Merged(first) + Merged(others);
      }
    }
  }

  // ---------------------------------------------------------------- the loop

  /** Readings of the steady clock, in nanoseconds, and of the running flag, in the order the loop makes
      them. `Stop` joins the thread before the flag can go up again, so for one run it only ever falls. */
  ghost predicate Monotone(clock: nat -> nat) { forall i, j :: i <= j ==> clock(i) <= clock(j) }
  ghost predicate Falls(up: nat -> bool, limit: nat) {
    !up(limit) && forall i, j :: i <= j && !up(i) ==> !up(j)
  }

  /** Consecutive ticks start at least `gap` apart. */
  ghost predicate Spaced(starts: seq<nat>, gap: nat) {
    forall k :: 0 <= k < |starts| - 1 ==> starts[k] + gap <= starts[k + 1]
  }

  /** How many readings of the clock and of the flag have been made. */
  datatype Readings = Readings(c: nat, r: nat)

  /** One tick, from the reading that starts it to the readings with which the loop goes round: besides
      the two readings of the clock that every tick makes, the sleep makes one for each reading of the
      flag that is up, and ends with the first at or past the deadline, or when the flag is down. It
      makes none when the tick itself took the interval. */
  ghost predicate TickedBetween(clock: nat -> nat, up: nat -> bool, gap: nat, from: Readings, to: Readings) {
    var deadline := clock(from.c) + gap;
    && up(from.r) && to.r > from.r && to.c - (from.c + 2) == to.r - (from.r + 1)
    && (forall q :: from.r <= q < to.r ==> up(q))
    && (forall c :: from.c < c < to.c - 1 ==> clock(c) < deadline)
    && (clock(to.c - 1) < deadline ==> !up(to.r))
  }

  /** Truncating the elapsed time to milliseconds does not matter: it reaches the interval exactly when
      the elapsed time does. */
  lemma TruncationIsExact(elapsed: nat, intervalMs: nat)
    ensures intervalMs - elapsed / NS_PER_MS <= 0 <==> elapsed >= intervalMs * NS_PER_MS
  {
  }

  /** The sleep at the end of a tick that began with the readings `from` and has made its second reading
      of the clock. */
  method SleepOut(intervalMs: nat, clock: nat -> nat, up: nat -> bool, ghost limit: nat, from: Readings)
      returns (to: Readings)
    requires Monotone(clock) && Falls(up, limit) && up(from.r)
    ensures TickedBetween(clock, up, intervalMs * NS_PER_MS, from, to)
  {
    var c, r := from.c + 1, from.r + 1;
    var start := clock(from.c);
    assert start <= clock(c);
    var elapsed := clock(c) - start;
    c := c + 1;
    TruncationIsExact(elapsed, intervalMs);
    var remaining := intervalMs - elapsed / NS_PER_MS;
    if remaining > 0 {
      var deadline := start + intervalMs * NS_PER_MS;
      while up(r)
        invariant r > from.r && c - (from.c + 2) == r - (from.r + 1)
        invariant forall q :: from.r <= q < r ==> up(q)
        invariant forall k :: from.c < k < c ==> clock(k) < deadline
        decreases limit - r
      {
        r := r + 1;
        var now := clock(c);
        c := c + 1;
        if deadline - now <= 0 {
          break;
        }
      }
    }
    return Readings(c, r);
  }

  /** A run of the loop: where each tick begins, and where the loop is left. */
  ghost predicate Ticks(clock: nat -> nat, up: nat -> bool, gap: nat, at: seq<Readings>) {
    && at != [] && at[0] == Readings(0, 0)
    && (forall k :: 0 <= k < |at| - 1 ==> TickedBetween(clock, up, gap, at[k], at[k + 1]))
  }

  ghost predicate StartsAt(clock: nat -> nat, at: seq<Readings>, starts: seq<nat>) {
    |at| == |starts| + 1 && forall k :: 0 <= k < |starts| ==> starts[k] == clock(at[k].c)
  }

  method Loop(intervalMs: nat, clock: nat -> nat, up: nat -> bool, ghost limit: nat, polls: nat -> seq<Polled>)
      returns (starts: seq<nat>, emitted: seq<seq<Metric>>, ghost at: seq<Readings>)
    requires Monotone(clock) && Falls(up, limit)
    ensures Ticks(clock, up, intervalMs * NS_PER_MS, at) && StartsAt(clock, at, starts) && !up(at[|starts|].r)
    ensures |emitted| == |starts| && forall k :: 0 <= k < |emitted| ==> emitted[k] == Merged(polls(k))
    ensures Spaced(starts, intervalMs * NS_PER_MS)
  {
    starts, emitted, at := [], [], [Readings(0, 0)];
    var now := Readings(0, 0);
    while up(now.r)
      invariant |emitted| == |starts| && forall k :: 0 <= k < |emitted| ==> emitted[k] == Merged(polls(k))
      invariant Ticks(clock, up, intervalMs * NS_PER_MS, at) && StartsAt(clock, at, starts) && now == at[|starts|]
      decreases limit - now.r
    {
      var tickStart := clock(now.c);
      starts := starts + [tickStart];
      var metrics := Collect(polls(|emitted|));
      emitted := emitted + [metrics];
      now := SleepOut(intervalMs, clock, up, limit, now);
      at := at + [now];
    }
    TicksAreSpaced(intervalMs * NS_PER_MS, clock, up, at, starts);
  }

  /** Consecutive ticks start at least the interval apart. */
  lemma TicksAreSpaced(gap: nat, clock: nat -> nat, up: nat -> bool, at: seq<Readings>, starts: seq<nat>)
    requires Monotone(clock) && Ticks(clock, up, gap, at) && StartsAt(clock, at, starts)
    ensures Spaced(starts, gap)
  {
    forall k | 0 <= k < |starts| - 1 ensures starts[k] + gap <= starts[k + 1] {
      assert TickedBetween(clock, up, gap, at[k], at[k + 1]);
      assert TickedBetween(clock, up, gap, at[k + 1], at[k + 2]);
      assert clock(at[k + 1].c - 1) <= clock(at[k + 1].c);
    }
  }

  /** Nor much more: when the clock is read at least every `step`, the next tick starts at most two
      readings late. */
  lemma TicksAreDue(gap: nat, step: nat, clock: nat -> nat, up: nat -> bool, at: seq<Readings>, starts: seq<nat>, k: nat)
    requires Monotone(clock) && Ticks(clock, up, gap, at) && StartsAt(clock, at, starts) && k + 1 < |starts|
    requires forall i: nat :: clock(i + 1) <= clock(i) + step
    ensures starts[k + 1] <= starts[k] + gap + 2 * step
  {
    var from, to := at[k], at[k + 1];
    assert TickedBetween(clock, up, gap, from, to);
    assert clock((to.c - 2) + 1) <= clock(to.c - 2) + step;
    assert clock((to.c - 1) + 1) <= clock(to.c - 1) + step;
  }

  /** Clock and flag alone decide: there is only one run of the loop. */
  lemma TickIsDecided(clock: nat -> nat, up: nat -> bool, gap: nat, from: Readings, a: Readings, b: Readings)
    requires Monotone(clock)
    requires TickedBetween(clock, up, gap, from, a) && TickedBetween(clock, up, gap, from, b)
    ensures a == b
  {
    TickEnds(clock, up, gap, from, a, b);
    TickEnds(clock, up, gap, from, b, a);
  }

  lemma TickEnds(clock: nat -> nat, up: nat -> bool, gap: nat, from: Readings, a: Readings, b: Readings)
    requires TickedBetween(clock, up, gap, from, a) && TickedBetween(clock, up, gap, from, b)
    ensures b.r <= a.r
  {
  }

  lemma {:induction false} TicksAreDecided(clock: nat -> nat, up: nat -> bool, gap: nat, a: seq<Readings>, b: seq<Readings>, k: nat)
    requires Monotone(clock) && Ticks(clock, up, gap, a) && Ticks(clock, up, gap, b) && k < |a| && k < |b|
    ensures a[k] == b[k]
  {
    if k > 0 {
      TicksAreDecided(clock, up, gap, a, b, k - 1);
      assert TickedBetween(clock, up, gap, a[k - 1], a[(k - 1) + 1]) && TickedBetween(clock, up, gap, b[k - 1], b[(k - 1) + 1]);
      TickIsDecided(clock, up, gap, a[k - 1], a[k], b[k]);
    }
  }

  /** And it goes on as long as the flag is up. */
  lemma RunIsDecided(clock: nat -> nat, up: nat -> bool, gap: nat, a: seq<Readings>, b: seq<Readings>)
    requires Monotone(clock) && Ticks(clock, up, gap, a) && Ticks(clock, up, gap, b)
    requires !up(a[|a| - 1].r) && !up(b[|b| - 1].r)
    ensures a == b
  {
    var n := if |a| < |b| then |a| - 1 else |b| - 1;
    TicksAreDecided(clock, up, gap, a, b, n);
    assert n < |a| - 1 ==> TickedBetween(clock, up, gap, a[n], a[n + 1]);
    assert n < |b| - 1 ==> TickedBetween(clock, up, gap, b[n], b[n + 1]);
    forall k | 0 <= k <= n ensures a[k] == b[k] { TicksAreDecided(clock, up, gap, a, b, k); }
  }

  /** When every tick takes the interval there is no sleep: one reading of the flag per tick, and ticks
      until the first that is down. */
  lemma {:induction false} SlowTicks(clock: nat -> nat, up: nat -> bool, gap: nat, at: seq<Readings>, k: nat)
    requires Ticks(clock, up, gap, at) && k < |at|
    requires forall i: nat :: clock(i) + gap <= clock(i + 1)
    ensures at[k] == Readings(2 * k, k) && forall q :: 0 <= q < k ==> up(q)
  {
    if k > 0 {
      SlowTicks(clock, up, gap, at, k - 1);
      var from := at[k - 1];
      assert TickedBetween(clock, up, gap, from, at[(k - 1) + 1]);
      assert clock(from.c) + gap <= clock(from.c + 1);
    }
  }

  // ---------------------------------------------------------------- what spacing means

  lemma {:induction false} TickNoEarlier(starts: seq<nat>, gap: nat, i: nat, k: nat)
    requires Spaced(starts, gap) && i + k < |starts|
    ensures starts[i + k] >= starts[i] + k * gap
  {
    if k > 0 {
      TickNoEarlier(starts, gap, i, k - 1);
      assert starts[i + k - 1] + gap <= starts[(i + k - 1) + 1];
      assert k * gap == (k - 1) * gap + gap;
    }
  }

  lemma LaterTick(starts: seq<nat>, gap: nat, i: nat, n: nat)
    requires Spaced(starts, gap) && i < n < |starts|
    ensures starts[n] >= starts[i] + gap
  {
    TickNoEarlier(starts, gap, i, n - i);
    Multiples(n - i, gap);
  }

  lemma OneMore(m: int, gap: nat)
    ensures m * gap == (m - 1) * gap + gap
  {
  }

  function TicksIn(starts: seq<nat>, lo: nat, hi: nat): nat {
    if starts == [] then 0
    else
      var n := |starts| - 1;
      TicksIn(starts[..n], lo, hi) + (if lo <= starts[n] <= hi then 1 else 0)
  }

  /** The ticks inside a window. */
  function Inside(starts: seq<nat>, lo: nat, hi: nat): set<nat> {
    set k: nat | k < |starts| && lo <= starts[k] <= hi
  }

  lemma {:induction false} TicksCounted(starts: seq<nat>, lo: nat, hi: nat)
    ensures TicksIn(starts, lo, hi) == |Inside(starts, lo, hi)|
  {
    if starts == [] {
      assert Inside(starts, lo, hi) == {};
    } else {
      var n: nat := |starts| - 1;
      TicksCounted(starts[..n], lo, hi);
      assert Inside(starts, lo, hi) == Inside(starts[..n], lo, hi) + (if lo <= starts[n] <= hi then {n} else {});
    }
  }

  /** The last of m ticks inside a window starts at least (m-1) gaps after its beginning. */
  lemma {:induction false} LastInWindow(starts: seq<nat>, gap: nat, lo: nat, hi: nat) returns (i: nat)
    requires Spaced(starts, gap) && TicksIn(starts, lo, hi) >= 1
    ensures i < |starts| && lo <= starts[i] <= hi
    ensures starts[i] >= lo + (TicksIn(starts, lo, hi) - 1) * gap
  {
    var n := |starts| - 1;
    var earlier := TicksIn(starts[..n], lo, hi);
    if earlier == 0 {
      i := n;
    } else {
      i := LastInWindow(starts[..n], gap, lo, hi);
      if lo <= starts[n] <= hi {
        LaterTick(starts, gap, i, n);
        OneMore(earlier, gap);
        i := n;
      }
    }
  }

  /** The rate is bounded: any window of length w holds at most floor(w / interval) + 1 tick starts. */
  lemma WindowBound(starts: seq<nat>, gap: nat, lo: nat, w: nat)
    requires Spaced(starts, gap) && gap >= 1
    ensures TicksIn(starts, lo, lo + w) <= w / gap + 1
  {
    var m := TicksIn(starts, lo, lo + w);
    if m >= 1 {
      var i := LastInWindow(starts, gap, lo, lo + w);
      QuotientBound(m - 1, gap, w);
    }
  }

  lemma QuotientBound(n: nat, gap: nat, w: nat)
    requires gap >= 1 && n * gap <= w
    ensures n <= w / gap
  {
    var q := w / gap;
    assert w < q * gap + gap;
    Multiples(n - q - 1, gap);
    assert (n - q - 1) * gap == n * gap - q * gap - gap;
  }

  /** The service samples every 1000 ms, so in any n seconds it ticks at most n + 1 times. */
  lemma OncePerSecond(starts: seq<nat>, lo: nat, n: nat)
    requires Spaced(starts, 1000 * NS_PER_MS)
    ensures |Inside(starts, lo, lo + n * 1_000_000_000)| <= n + 1
  {
    TicksCounted(starts, lo, lo + n * 1_000_000_000);
    WindowBound(starts, 1000 * NS_PER_MS, lo, n * 1_000_000_000);
  }
}
