/** The client's connection monitor: probe the channel, publish changes, back off after failures. */
module Channel {
  import opened Rings

  datatype ConnectionState = Disconnected | Connecting | Connected

  datatype Probe = Ready | ProbeConnecting | TransientFailure | Shutdown | ChannelIdle {
    predicate IsFailure() { TransientFailure? || Shutdown? }
  }

  /** The connection state a probe stands for; an idle channel says nothing. */
  function Meaning(probe: Probe): seq<ConnectionState> {
    match probe
    case Ready => [Connected]
    case ProbeConnecting => [Connecting]
    case TransientFailure => [Disconnected]
    case Shutdown => [Disconnected]
    case ChannelIdle => []
  }

  function Mapped(probes: seq<Probe>): seq<ConnectionState> {
    if probes == [] then [] else Mapped(probes[..|probes| - 1]) + Meaning(probes[|probes| - 1])
  }

  /** What the manager shows is what the last probe that says anything says: ready is connected, a
      failure or a shutdown is disconnected; an idle channel leaves things as they were. */
  lemma {:induction false} StateIsLastSaid(first: ConnectionState, probes: seq<Probe>, i: nat)
    requires i < |probes| && !probes[i].ChannelIdle? && forall j :: i < j < |probes| ==> probes[j].ChannelIdle?
    ensures var state := LastOf(first, Mapped(probes));
            && (state == Connected <==> probes[i] == Ready)
            && (state == Connecting <==> probes[i] == ProbeConnecting)
            && (state == Disconnected <==> probes[i] in {TransientFailure, Shutdown})
    decreases |probes|
  {
    var n := |probes| - 1;
    if i < n { StateIsLastSaid(first, probes[..n], i); }
  }

  lemma {:induction false} AllIdleSaysNothing(first: ConnectionState, probes: seq<Probe>)
    requires forall j :: 0 <= j < |probes| ==> probes[j].ChannelIdle?
    ensures LastOf(first, Mapped(probes)) == first
  {
    if probes != [] { AllIdleSaysNothing(first, probes[..|probes| - 1]); }
  }

  // ---------------------------------------------------------------- stutter-free form

  /** Drop every element equal to the one before it, `prev` standing before the first. */
  function Destutter<T(==)>(prev: T, s: seq<T>): seq<T> {
    if s == [] then []
    else if s[0] == prev then Destutter(prev, s[1..])
    else [s[0]] + Destutter(s[0], s[1..])
  }

  function LastOf<T>(prev: T, s: seq<T>): T { if s == [] then prev else s[|s| - 1] }

  ghost predicate StutterFree<T>(prev: T, r: seq<T>) {
    && (r != [] ==> r[0] != prev)
    && forall i :: 0 <= i < |r| - 1 ==> r[i] != r[i + 1]
  }

  /** `s` is prev, r[0], r[1], ... with each repeated any number of times (prev possibly zero times). */
  ghost predicate Stretches<T>(prev: T, r: seq<T>, s: seq<T>) {
    if s == [] then r == []
    else || (s[0] == prev && Stretches(prev, r, s[1..]))
         || (r != [] && r[0] == s[0] && Stretches(r[0], r[1..], s[1..]))
  }

  /** The stutter-free form exists and is what `Destutter` computes. */
  lemma {:induction false} DestutterIsForm<T>(prev: T, s: seq<T>)
    ensures StutterFree(prev, Destutter(prev, s)) && Stretches(prev, Destutter(prev, s), s)
    ensures Destutter(prev, s) != [] ==> LastOf(prev, Destutter(prev, s)) == LastOf(prev, s)
    ensures Destutter(prev, s) == [] ==> LastOf(prev, s) == prev
  {
    if s != [] {
      if s[0] == prev {
        DestutterIsForm(prev, s[1..]);
      } else {
        DestutterIsForm(s[0], s[1..]);
        var rest := Destutter(s[0], s[1..]);
        assert Destutter(prev, s)[1..] == rest;
      }
    }
  }

  /** And it is the only one. */
  lemma {:induction false} FormIsUnique<T>(prev: T, r: seq<T>, s: seq<T>)
    requires StutterFree(prev, r) && Stretches(prev, r, s)
    ensures r == Destutter(prev, s)
    decreases |s|
  {
    if s != [] {
      if s[0] == prev && Stretches(prev, r, s[1..]) {
        FormIsUnique(prev, r, s[1..]);
      } else {
        assert StutterFree(r[0], r[1..]);
        FormIsUnique(r[0], r[1..], s[1..]);
      }
    }
  }

  lemma {:induction false} DestutterAppend<T>(prev: T, s: seq<T>, x: T)
    ensures Destutter(prev, s + [x]) == Destutter(prev, s) + (if x == LastOf(prev, s) then [] else [x])
  {
    if s == [] {
      assert s + [x] == [x];
    } else {
      assert (s + [x])[1..] == s[1..] + [x];
      DestutterAppend(if s[0] == prev then prev else s[0], s[1..], x);
    }
  }

  lemma DestutterMore<T>(prev: T, s: seq<T>, more: seq<T>)
    requires |more| <= 1
    ensures Destutter(prev, s + more) == Destutter(prev, s) + Destutter(LastOf(prev, s), more)
    ensures LastOf(prev, s + more) == LastOf(LastOf(prev, s), more)
  {
    if more == [] {
      assert s + more == s;
    } else {
      assert more == [more[0]];
      DestutterAppend(prev, s, more[0]);
    }
  }

  // ---------------------------------------------------------------- backoff

  function Pow2(k: nat): (p: nat)
    ensures p >= 1
  {
    if k == 0 then 1 else 2 * Pow2(k - 1)
  }

  /** Failures among the first i probes since the last READY; CONNECTING and IDLE do not reset it. */
  function FailuresSince(probes: seq<Probe>, i: nat): nat
    requires i <= |probes|
  {
    if i == 0 || probes[i - 1].Ready? then 0
    else FailuresSince(probes, i - 1) + (if probes[i - 1].IsFailure() then 1 else 0)
  }

  /** What the loop's counter of seconds must hold before probe i. */
  function BackoffBefore(probes: seq<Probe>, i: nat): nat
    requires i <= |probes|
  {
    Min(Pow2(FailuresSince(probes, i)), 15)
  }

  /** The wait after probe i, in milliseconds: half a second, or after a failure 2^k seconds, k the
      earlier failures since the last READY, capped at 15. */
  function WaitAfter(probes: seq<Probe>, i: nat): nat
    requires i < |probes|
  {
    if probes[i].IsFailure() then 1000 * BackoffBefore(probes, i) else 500
  }

  /** The schedule, in milliseconds: 500 unless the channel failed, and then 1, 2, 4, 8 and from then on
      15 seconds. */
  lemma WaitIsScheduled(probes: seq<Probe>, i: nat)
    requires i < |probes|
    ensures var failures := FailuresSince(probes, i);
            WaitAfter(probes, i)
            == if probes[i] !in {TransientFailure, Shutdown} then 500
               else if failures == 0 then 1000
               else if failures == 1 then 2000
               else if failures == 2 then 4000
               else if failures == 3 then 8000
               else 15000
  {
    var k := FailuresSince(probes, i);
    assert Pow2(1) == 2 && Pow2(2) == 4 && Pow2(3) == 8 && Pow2(4) == 16;
    if k >= 4 { PowerGrows(k); }
  }

  lemma {:induction false} PowerGrows(k: nat)
    requires k >= 4
    ensures Pow2(k) >= 16
  {
    if k > 4 { PowerGrows(k - 1); } else { assert Pow2(1) == 2 && Pow2(2) == 4 && Pow2(3) == 8; }
  }

  /** The failures that count are those behind the last READY, whatever else was seen meanwhile. */
  lemma {:induction false} FailuresCounted(probes: seq<Probe>, from: nat, i: nat)
    requires from <= i <= |probes| && (from == 0 || probes[from - 1] == Ready)
    requires forall j :: from <= j < i ==> probes[j] != Ready
    ensures FailuresSince(probes, i) == |set j | from <= j < i && probes[j] in {TransientFailure, Shutdown}|
    decreases i
  {
    var failures := set j | from <= j < i && probes[j] in {TransientFailure, Shutdown};
    if i > from {
      FailuresCounted(probes, from, i - 1);
      var before := set j | from <= j < i - 1 && probes[j] in {TransientFailure, Shutdown};
      assert failures == before + (if probes[i - 1] in {TransientFailure, Shutdown} then {i - 1} else {});
    } else {
      assert failures == {};
    }
  }

  /** The waits after the first i probes. */
  function Waits(probes: seq<Probe>, i: nat): (waits: seq<nat>)
    requires i <= |probes|
    ensures |waits| == i && forall k :: 0 <= k < i ==> waits[k] == WaitAfter(probes, k)
  {
    if i == 0 then [] else Waits(probes, i - 1) + [WaitAfter(probes, i - 1)]
  }

  lemma BackoffNext(probes: seq<Probe>, i: nat)
    requires i < |probes|
    ensures BackoffBefore(probes, i + 1)
         == if probes[i].Ready? then 1
            else if probes[i].IsFailure() then Min(BackoffBefore(probes, i) * 2, 15)
            else BackoffBefore(probes, i)
  {
    var k := FailuresSince(probes, i);
    assert Pow2(k + 1) == 2 * Pow2(k);
  }

  /** The calls a callback has heard once the states in `shown` were set, from `first` on. */
  function Heard(hasCallback: bool, first: ConnectionState, shown: seq<ConnectionState>): seq<ConnectionState> {
    if hasCallback then Destutter(first, shown) else []
  }

  lemma HeardNext(hasCallback: bool, before: seq<ConnectionState>, first: ConnectionState, probes: seq<Probe>, i: nat)
    requires i < |probes|
    ensures var shown, next := Mapped(probes[..i]), Mapped(probes[..i + 1]);
            && LastOf(first, next) == LastOf(LastOf(first, shown), Meaning(probes[i]))
            && before + Heard(hasCallback, first, next)
               == before + Heard(hasCallback, first, shown) + Heard(hasCallback, LastOf(first, shown), Meaning(probes[i]))
  {
    MappedNext(probes, i);
    DestutterMore(first, Mapped(probes[..i]), Meaning(probes[i]));
  }

  lemma HeardLast(hasCallback: bool, before: seq<ConnectionState>, first: ConnectionState, shown: seq<ConnectionState>)
    ensures before + Heard(hasCallback, first, shown + [Disconnected])
         == before + Heard(hasCallback, first, shown)
            + (if hasCallback && LastOf(first, shown) != Disconnected then [Disconnected] else [])
  {
    DestutterMore(first, shown, [Disconnected]);
  }

  /** One probe sets at most one state, which is heard when it is a change. */
  lemma Shown(state: ConnectionState, probe: Probe)
    ensures LastOf(state, Meaning(probe)) == if probe.ChannelIdle? then state else Meaning(probe)[0]
    ensures Destutter(state, Meaning(probe)) == if LastOf(state, Meaning(probe)) == state then [] else Meaning(probe)
  {
  }

  class ChannelManager {
    var state: ConnectionState
    const hasCallback: bool
    /** The calls made to the installed callback. */
    var notified: seq<ConnectionState>

    constructor (hasCallback: bool)
      ensures state == Disconnected && notified == [] && this.hasCallback == hasCallback
    {
      state, notified := Disconnected, [];
      this.hasCallback := hasCallback;
    }

    method SetState(next: ConnectionState)
      modifies this
      ensures state == next
      ensures notified == if hasCallback && next != old(state) then old(notified) + [next] else old(notified)
    {
      if state == next {
        return;
      }
      state := next;
      if hasCallback {
        notified := notified + [next];
      }
    }

    /** The switch over what the channel shows. */
    method Observe(probe: Probe)
      modifies this
      ensures state == LastOf(old(state), Meaning(probe))
      ensures notified == old(notified) + Heard(hasCallback, old(state), Meaning(probe))
    {
      Shown(state, probe);
      match probe {
        case Ready => SetState(Connected);
        case ProbeConnecting => SetState(Connecting);
        case TransientFailure => SetState(Disconnected);
        case Shutdown => SetState(Disconnected);
        case ChannelIdle =>
      }
    }

    /** `probes` are the states the channel shows while the monitor runs. */
    method MonitorLoop(probes: seq<Probe>) returns (waits: seq<nat>)
      modifies this
      ensures waits == Waits(probes, |probes|)
      ensures state == Disconnected
      ensures notified == old(notified) + Heard(hasCallback, old(state), Mapped(probes) + [Disconnected])
    {
      ghost var first, before := state, notified;
      waits := [];
      var backoff := 1;
      for i := 0 to |probes|
        invariant waits == Waits(probes, i) && backoff == BackoffBefore(probes, i)
        invariant state == LastOf(first, Mapped(probes[..i]))
        invariant notified == before + Heard(hasCallback, first, Mapped(probes[..i]))
      {
        HeardNext(hasCallback, before, first, probes, i);
        BackoffNext(probes, i);
        Observe(probes[i]);
        if probes[i].Ready? {
          backoff := 1;
        }
        var wait := 500;
        if probes[i].IsFailure() {
          wait := 1000 * backoff;
          backoff := Min(backoff * 2, 15);
        }
        waits := waits + [wait];
      }
      assert probes[..|probes|] == probes;
      HeardLast(hasCallback, before, first, Mapped(probes));
      SetState(Disconnected);
    }
  }

  lemma MappedNext(probes: seq<Probe>, i: nat)
    requires i < |probes|
    ensures Mapped(probes[..i + 1]) == Mapped(probes[..i]) + Meaning(probes[i])
  {
    assert probes[..i + 1][..i] == probes[..i];
  }

  /** A callback installed before a fresh manager starts hears the one stutter-free form of what was
      observed, and, if it hears anything, Disconnected last. */
  lemma NotificationsAreTheForm(probes: seq<Probe>, heard: seq<ConnectionState>)
    ensures heard == Destutter(Disconnected, Mapped(probes) + [Disconnected])
            <==> StutterFree(Disconnected, heard) && Stretches(Disconnected, heard, Mapped(probes) + [Disconnected])
    ensures var form := Destutter(Disconnected, Mapped(probes) + [Disconnected]);
            form != [] ==> form[|form| - 1] == Disconnected
  {
    DestutterIsForm(Disconnected, Mapped(probes) + [Disconnected]);
    if StutterFree(Disconnected, heard) && Stretches(Disconnected, heard, Mapped(probes) + [Disconnected]) {
      FormIsUnique(Disconnected, heard, Mapped(probes) + [Disconnected]);
    }
  }
}
