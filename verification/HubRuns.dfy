/** `TelemetryHub` under interleaving: the collector thread is its only publisher, and a publication
    enters the history ring before the fan-out begins. */
module HubRuns {
  import opened FanOut
  import opened FanOutRuns
  import opened Rings

  const SUBSCRIBER_QUEUE_CAPACITY: Capacity := 64

  datatype Hub<T> = Hub(fan: State<T>, history: Ring<T>)

  function StartHub<T>(historyCapacity: nat): Hub<T> {
    Hub(Start(SUBSCRIBER_QUEUE_CAPACITY, {0}), Empty(historyCapacity))
  }

  /** `history_.Push(sample)` is the step that makes the publication in flight. */
  function Recorded<T>(history: Ring<T>, a: Action<T>): Ring<T> {
    if a.Prepare? && history.Valid() then history.Push(a.item) else history
  }

  ghost predicate HubStep<T>(h: Hub<T>, a: Action<T>, h': Hub<T>) {
    Step(h.fan, a, h'.fan) && h'.history == Recorded(h.history, a)
  }

  ghost predicate HubRun<T>(hubs: seq<Hub<T>>, acts: seq<Action<T>>) {
    && |hubs| == |acts| + 1
    && forall i {:trigger acts[i]} :: 0 <= i < |acts| ==> HubStep(hubs[i], acts[i], hubs[i + 1])
  }

  ghost function Fans<T>(hubs: seq<Hub<T>>): (fans: seq<State<T>>)
    ensures |fans| == |hubs|
    ensures forall i :: 0 <= i < |hubs| ==> fans[i] == hubs[i].fan
  {
    seq(|hubs|, i requires 0 <= i < |hubs| => hubs[i].fan)
  }

  lemma FansRun<T>(hubs: seq<Hub<T>>, acts: seq<Action<T>>)
    requires HubRun(hubs, acts)
    ensures Run(Fans(hubs), acts)
  {
  }

  /** Everything published so far, the sample in flight included. */
  ghost function Log<T>(h: Hub<T>): seq<T> {
    if 0 in h.fan.pubs then h.fan.pubs[0].sent else []
  }

  lemma RecordStep<T>(h: Hub<T>, a: Action<T>, h': Hub<T>)
    requires HubStep(h, a, h') && h.fan.pubs.Keys == {0} && h.history.Represents(Log(h))
    ensures h'.fan.pubs.Keys == {0} && h'.history.Represents(Log(h')) && h'.history.cap == h.history.cap
    ensures Log(h) <= Log(h')
  {
    if a.Prepare? { PushRepresents(h.history, Log(h), a.item); }
  }

  lemma {:induction false} HistoryIsLog<T>(capacity: nat, hubs: seq<Hub<T>>, acts: seq<Action<T>>, k: nat)
    requires HubRun(hubs, acts) && hubs[0] == StartHub(capacity) && k <= |acts|
    ensures hubs[k].fan.pubs.Keys == {0} && hubs[k].history.Represents(Log(hubs[k]))
    ensures hubs[k].history.cap == if capacity == 0 then 1 else capacity
  {
    if k > 0 {
      HistoryIsLog(capacity, hubs, acts, k - 1);
      RecordStep(hubs[k - 1], acts[k - 1], hubs[k]);
    }
  }

  lemma {:induction false} AllFromOne<T>(got: seq<Got<T>>)
    requires forall i :: 0 <= i < |got| ==> got[i].from == 0
    ensures From(got, 0) == Items(got)
  {
    if got != [] {
      var init := got[..|got| - 1];
      AllFromOne(init);
      assert Items(got) == Items(init) + [got[|got| - 1].item];
    }
  }

  /** Where in the log the samples handed to a subscriber begin. */
  ghost function Since<T>(h: Hub<T>, id: nat): nat {
    if id in h.fan.clients && 0 in h.fan.clients[id].since then h.fan.clients[id].since[0] else 0
  }

  /** The one sample a subscriber may be missing: the one in flight, not yet pushed to it. */
  ghost function Missing<T>(h: Hub<T>, id: nat): nat {
    if 0 in h.fan.pubs && (h.fan.pubs[0].phase.Prepared? || h.fan.pubs[0].Owes(id)) then 1 else 0
  }

  lemma HandedIsWindow<T>(capacity: nat, hubs: seq<Hub<T>>, acts: seq<Action<T>>, k: nat, id: nat)
    requires HubRun(hubs, acts) && hubs[0] == StartHub(capacity) && k <= |acts|
    requires id in hubs[k].fan.clients
    ensures var c := hubs[k].fan.clients[id];
            var log, first := Log(hubs[k]), Since(hubs[k], id);
            && Conserved(c, SUBSCRIBER_QUEUE_CAPACITY)
            && first + |c.got| <= |log|
            && Items(c.got) == log[first..first + |c.got|]
            && (Strong(hubs[k].fan, id) && !c.closed ==> first + |c.got| == |log| - Missing(hubs[k], id))
  {
    var fan := hubs[k].fan;
    assert Inv(fan) && fan.cap == SUBSCRIBER_QUEUE_CAPACITY && fan.pubs.Keys == {0} by {
      FansRun(hubs, acts);
      Reachable(SUBSCRIBER_QUEUE_CAPACITY, {0}, Fans(hubs), acts, k);
    }
    assert ClientShape(fan, fan.clients[id]);
    assert WindowOk(fan, id, 0);
    AllFromOne(fan.clients[id].got);
  }

  /** In every interleaving the queue of every subscriber is a contiguous window of the published log;
      that of an open, referenced one ends at the last sample published, or just before the one in
      flight. */
  lemma QueueIsWindow<T>(capacity: nat, hubs: seq<Hub<T>>, acts: seq<Action<T>>, k: nat, id: nat)
    requires HubRun(hubs, acts) && hubs[0] == StartHub(capacity) && k <= |acts|
    requires id in hubs[k].fan.clients
    ensures var c := hubs[k].fan.clients[id];
            var log, end := Log(hubs[k]), Since(hubs[k], id) + |c.got|;
            && |c.queue| <= end <= |log|
            && c.queue == log[end - |c.queue|..end]
            && (Strong(hubs[k].fan, id) && !c.closed ==> end == |log| - Missing(hubs[k], id))
    ensures hubs[k].fan.pubs.Keys == {0} && (hubs[k].fan.pubs[0].phase.Idle? ==> Missing(hubs[k], id) == 0)
  {
    HistoryIsLog(capacity, hubs, acts, k);
    HandedIsWindow(capacity, hubs, acts, k, id);
  }

  /** Whenever no publication is in flight, what an open subscriber has queued is exactly what
      `History(|queue|)` returns, as long as the ring is at least as long as the queue; a shorter ring
      has forgotten some of it. */
  lemma QueueIsHistory<T>(capacity: nat, hubs: seq<Hub<T>>, acts: seq<Action<T>>, k: nat, id: nat)
    requires HubRun(hubs, acts) && hubs[0] == StartHub(capacity) && k <= |acts|
    requires id in hubs[k].fan.clients && Strong(hubs[k].fan, id) && !hubs[k].fan.clients[id].closed
    requires 0 in hubs[k].fan.pubs && hubs[k].fan.pubs[0].phase.Idle?
    ensures hubs[k].history.Valid()
    ensures var queue := hubs[k].fan.clients[id].queue;
            && (queue == hubs[k].history.History(|queue|) <==> |queue| <= hubs[k].history.cap)
            && (capacity >= 64 ==> queue == hubs[k].history.History(|queue|))
  {
    var queue, log, history := hubs[k].fan.clients[id].queue, Log(hubs[k]), hubs[k].history;
    assert history.Represents(log) && history.cap == (if capacity == 0 then 1 else capacity) by {
      HistoryIsLog(capacity, hubs, acts, k);
    }
    assert |queue| <= |log| && queue == Suffix(log, |queue|) by { QueueIsWindow(capacity, hubs, acts, k, id); }
    assert |queue| <= SUBSCRIBER_QUEUE_CAPACITY by { HandedIsWindow(capacity, hubs, acts, k, id); }
    SuffixIsHistory(history, log, queue);
  }

  lemma SuffixIsHistory<T>(history: Ring<T>, log: seq<T>, queue: seq<T>)
    requires history.Represents(log) && |queue| <= |log| && queue == Suffix(log, |queue|)
    ensures queue == history.History(|queue|) <==> |queue| <= history.cap
  {
    LastNIsSuffix(history, log, Min(|queue|, history.cap));
  }

  /** Appending one enabled action to a run of the hub. */
  lemma ExtendHub<T>(hubs: seq<Hub<T>>, acts: seq<Action<T>>, a: Action<T>) returns (hubs': seq<Hub<T>>, acts': seq<Action<T>>)
    requires HubRun(hubs, acts) && Enabled(hubs[|acts|].fan, a)
    ensures var last := hubs[|acts|];
            hubs' == hubs + [Hub(Apply(last.fan, a), Recorded(last.history, a))] && acts' == acts + [a]
    ensures HubRun(hubs', acts')
  {
    var last := hubs[|acts|];
    hubs', acts' := hubs + [Hub(Apply(last.fan, a), Recorded(last.history, a))], acts + [a];
    forall i | 0 <= i < |acts'| ensures HubStep(hubs'[i], acts'[i], hubs'[i + 1]) {
      if i < |acts| { assert HubStep(hubs[i], acts[i], hubs[i + 1]); }
    }
  }

  /** One undisturbed publication to the only subscriber of a hub. */
  lemma PublishOnce(hubs: seq<Hub<nat>>, acts: seq<Action<nat>>, item: nat) returns (hubs': seq<Hub<nat>>, acts': seq<Action<nat>>)
    requires HubRun(hubs, acts)
    requires var h := hubs[|acts|];
             && h.fan.pubs.Keys == {0} && h.fan.pubs[0].phase.Idle? && h.fan.registered == [0] && h.history.Valid()
             && 0 in h.fan.clients && h.fan.clients[0].held && !h.fan.clients[0].closed
    ensures HubRun(hubs', acts') && hubs'[0] == hubs[0]
    ensures var h, h' := hubs[|acts|], hubs'[|acts'|];
            && h'.fan.pubs.Keys == {0} && h'.fan.pubs[0].phase.Idle? && h'.fan.registered == [0]
            && h'.history == h.history.Push(item)
            && 0 in h'.fan.clients && h'.fan.clients[0] == Push(h.fan.clients[0], h.fan.cap, 0, item)
            && h'.fan.cap == h.fan.cap
  {
    hubs', acts' := ExtendHub(hubs, acts, Prepare(0, item));
    assert Lockable(hubs'[|acts'|].fan, [0]) == [0];
    hubs', acts' := ExtendHub(hubs', acts', FanOut.Snapshot(0));
    hubs', acts' := ExtendHub(hubs', acts', FanOut.Deliver(0));
    hubs', acts' := ExtendHub(hubs', acts', Return(0));
  }

  /** A ring shorter than the queue does forget: after two publications a ring of one holds less than
      an open subscriber's queue, with nothing in flight. */
  lemma ShortRingForgets() returns (hubs: seq<Hub<nat>>, acts: seq<Action<nat>>)
    ensures HubRun(hubs, acts) && hubs[0] == StartHub(1)
    ensures var h := hubs[|acts|];
            && 0 in h.fan.clients && Strong(h.fan, 0) && !h.fan.clients[0].closed
            && 0 in h.fan.pubs && h.fan.pubs[0].phase.Idle?
            && h.history.Valid() && h.fan.clients[0].queue != h.history.History(|h.fan.clients[0].queue|)
  {
    hubs, acts := [StartHub(1)], [];
    hubs, acts := ExtendHub(hubs, acts, FanOut.Subscribe(0));
    hubs, acts := PublishOnce(hubs, acts, 7);
    hubs, acts := PublishOnce(hubs, acts, 8);
    var h := hubs[|acts|];
    assert h.fan.clients[0].queue == [7, 8];
    assert |h.history.History(2)| == 1;
  }

  /** The samples a subscriber popped sit at strictly increasing positions of the log, so no sample is
      seen twice or out of order. */
  ghost predicate AtPositions<T>(samples: seq<T>, at: seq<nat>, log: seq<T>) {
    && |at| == |samples|
    && (forall i, j :: 0 <= i < j < |at| ==> at[i] < at[j])
    && forall j :: 0 <= j < |at| ==> at[j] < |log| && samples[j] == log[at[j]]
  }

  lemma KeptPositions<T>(got: seq<Got<T>>, dropped: seq<bool>, log: seq<T>, first: nat) returns (at: seq<nat>)
    requires |dropped| <= |got| && first + |got| <= |log| && Items(got) == log[first..first + |got|]
    ensures AtPositions(Kept(Items(got), dropped), at, log)
  {
    var kept := KeptAt(dropped);
    at := seq(|kept|, n requires 0 <= n < |kept| => first + kept[n]);
    forall j | 0 <= j < |at|
      ensures at[j] < |log| && Kept(Items(got), dropped)[j] == log[at[j]]
    {
      assert Items(got)[kept[j]] == log[first..first + |got|][kept[j]];
    }
  }

  lemma PoppedFromLog<T>(capacity: nat, hubs: seq<Hub<T>>, acts: seq<Action<T>>, id: nat, i: nat, j: nat)
      returns (at: seq<nat>)
    requires HubRun(hubs, acts) && hubs[0] == StartHub(capacity)
    requires i < j <= |acts| && acts[i] == Subscribe(id)
    ensures AtPositions(Popped(Fans(hubs), acts, id, i + 1, j), at, Log(hubs[j]))
  {
    PoppedAreKept(hubs, acts, id, i, j);
    HandedIsWindow(capacity, hubs, acts, j, id);
    var c := hubs[j].fan.clients[id];
    at := KeptPositions(c.got, c.dropped, Log(hubs[j]), Since(hubs[j], id));
  }

  lemma PoppedAreKept<T>(hubs: seq<Hub<T>>, acts: seq<Action<T>>, id: nat, i: nat, j: nat)
    requires HubRun(hubs, acts) && hubs[0].fan == Start(SUBSCRIBER_QUEUE_CAPACITY, {0})
    requires i < j <= |acts| && acts[i] == Subscribe(id)
    ensures id in hubs[j].fan.clients
    ensures var c := hubs[j].fan.clients[id];
            |c.dropped| <= |c.got| && Popped(Fans(hubs), acts, id, i + 1, j) == Kept(Items(c.got), c.dropped)
  {
    FansRun(hubs, acts);
    Conservation(SUBSCRIBER_QUEUE_CAPACITY, {0}, Fans(hubs), acts, id, i, j);
  }
}
