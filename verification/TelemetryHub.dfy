/** The fan-out classes. `TelemetryHub` and `EventBus` repeat the same `Subscriber` and the same
    publish loop with capacities 64 and 32; both use one `Broadcast` here. */
module Telemetry {
  import opened FanOut
  import opened Rings

  class Subscriber<T> {
    var queue: seq<T>
    var closed: bool
    /** How many shared pointers exist; a weak pointer can be locked while there is one. */
    var references: nat
    const capacity: Capacity

    constructor (capacity: Capacity)
      ensures queue == [] && !closed && references == 1 && this.capacity == capacity
    {
      queue, closed, references := [], false, 1;
      this.capacity := capacity;
    }

    /** `Pop` at the moment its wait ends: with a sample, or on an empty queue because of the timeout
        or of `Close`. */
    method Pop() returns (ok: bool, out: seq<T>)
      modifies this`queue
      ensures ok <==> old(queue) != []
      ensures old(queue) == out + queue && |out| == if ok then 1 else 0
    {
      out := [];
      if queue == [] {
        return false, out;
      }
      out := [queue[0]];
      queue := queue[1..];
      return true, out;
    }

    method Close()
      modifies this`closed
      ensures closed
    {
      closed := true;
    }

    /** One locked push of `Publish`. */
    method Receive(item: T)
      modifies this`queue
      ensures queue == if closed then old(queue) else Offer(old(queue), capacity, item)
    {
      if closed {
        return;
      }
      if |queue| >= capacity {
        queue := queue[1..];
      }
      queue := queue + [item];
    }

    method QueueSize() returns (n: nat)
      ensures n == |queue|
    {
      n := |queue|;
    }
  }

  ghost predicate Apart<A>(subs: seq<A>) {
    forall i, j :: 0 <= i < j < |subs| ==> subs[i] != subs[j]
  }

  /** The subscribers whose weak pointer can be locked. */
  ghost function Referenced<T>(subs: seq<Subscriber<T>>): set<Subscriber<T>>
    reads subs`references
  {
    set s | s in subs && s.references > 0
  }

  /** Of the first n elements of a list those that belong to a set, in order. */
  ghost function FilterTo<A>(list: seq<A>, n: nat, keep: set<A>): (kept: seq<A>)
    requires n <= |list|
    ensures |kept| <= n
    ensures forall i :: 0 <= i < |kept| ==> kept[i] in list && kept[i] in keep
    ensures forall i :: 0 <= i < n && list[i] in keep ==> list[i] in kept
  {
    if n == 0 then [] else FilterTo(list, n - 1, keep) + (if list[n - 1] in keep then [list[n - 1]] else [])
  }

  ghost function Filter<A>(list: seq<A>, keep: set<A>): (kept: seq<A>)
    ensures forall i :: 0 <= i < |kept| ==> kept[i] in list && kept[i] in keep
    ensures forall i :: 0 <= i < |list| && list[i] in keep ==> list[i] in kept
  {
    FilterTo(list, |list|, keep)
  }

  lemma {:induction false} FilterFrom<A>(list: seq<A>, n: nat, keep: set<A>)
    requires n <= |list|
    ensures forall x :: x in FilterTo(list, n, keep) ==> exists i :: 0 <= i < n && list[i] == x
  {
    if n > 0 { FilterFrom(list, n - 1, keep); }
  }

  lemma {:induction false} FilterApart<A>(list: seq<A>, n: nat, keep: set<A>)
    requires Apart(list) && n <= |list|
    ensures Apart(FilterTo(list, n, keep))
  {
    if n > 0 {
      FilterApart(list, n - 1, keep);
      FilterFrom(list, n - 1, keep);
    }
  }

  /** Erasing while iterating: the list once n of its entries have been looked at. */
  ghost function Pruned<A>(was: seq<A>, n: nat, keep: set<A>): (list: seq<A>)
    requires n <= |was|
  {
    if n == 0 then was
    else
      var before, at := Pruned(was, n - 1, keep), |FilterTo(was, n - 1, keep)|;
      if was[n - 1] in keep || at >= |before| then before else before[..at] + before[at + 1..]
  }

  /** It is what is kept of them, and then the entries not yet looked at. */
  lemma {:induction false} PrunedIs<A>(was: seq<A>, n: nat, keep: set<A>)
    requires n <= |was|
    ensures Pruned(was, n, keep) == FilterTo(was, n, keep) + was[n..]
  {
    if n > 0 {
      PrunedIs(was, n - 1, keep);
      assert was[n - 1..] == [was[n - 1]] + was[n..];
    }
  }

  lemma PrunedNext<A>(was: seq<A>, n: nat, keep: set<A>)
    requires n <= |was|
    ensures var list, at := Pruned(was, n, keep), |FilterTo(was, n, keep)|;
            && |list| == at + (|was| - n)
            && (n < |was| ==>
                  && list[at] == was[n]
                  && FilterTo(was, n + 1, keep) == FilterTo(was, n, keep) + (if was[n] in keep then [was[n]] else [])
                  && Pruned(was, n + 1, keep) == (if was[n] in keep then list else list[..at] + list[at + 1..]))
    ensures n == |was| ==> Pruned(was, n, keep) == FilterTo(was, n, keep)
  {
    PrunedIs(was, n, keep);
  }

  class Broadcast<T> {
    var subscribers: seq<Subscriber<T>>
    const capacity: Capacity

    ghost predicate Valid()
      reads this, subscribers
    {
      Apart(subscribers) && forall s :: s in subscribers ==> s.capacity == capacity
    }

    constructor (capacity: Capacity)
      ensures Valid() && subscribers == [] && this.capacity == capacity
    {
      subscribers := [];
      this.capacity := capacity;
    }

    method Subscribe() returns (sub: Subscriber<T>)
      requires Valid()
      modifies this
      ensures Valid() && fresh(sub) && sub.queue == [] && !sub.closed && sub.references == 1
      ensures subscribers == old(subscribers) + [sub]
    {
      sub := new Subscriber(capacity);
      subscribers := subscribers + [sub];
    }

    /** The snapshot under the list lock: collect what can be locked, erase what cannot, in one pass. */
    method Snapshot() returns (live: seq<Subscriber<T>>)
      requires Valid()
      modifies this
      ensures Valid() && live == subscribers
      ensures subscribers == Filter(old(subscribers), old(Referenced(subscribers)))
    {
      ghost var was, alive := subscribers, Referenced(subscribers);
      live := [];
      var i := 0;
      ghost var seen: nat := 0;
      while i < |subscribers|
        invariant seen <= |was| && i == |live|
        invariant subscribers == Pruned(was, seen, alive) && live == FilterTo(was, seen, alive)
        decreases |was| - seen
      {
        PrunedNext(was, seen, alive);
        assert subscribers[i] == was[seen];
        assert was[seen] in alive <==> subscribers[i].references > 0;
        if subscribers[i].references > 0 {
          live := live + [subscribers[i]];
          i := i + 1;
          assert subscribers == Pruned(was, seen + 1, alive);
        } else {
          subscribers := subscribers[..i] + subscribers[i + 1..];
          assert subscribers == Pruned(was, seen + 1, alive);
        }
        assert live == FilterTo(was, seen + 1, alive);
        seen := seen + 1;
      }
      PrunedNext(was, seen, alive);
      FilterApart(was, |was|, alive);
    }

    /** The push loop of `Publish`. */
    method Deliver(live: seq<Subscriber<T>>, item: T)
      requires Apart(live)
      modifies live`queue
      ensures forall i :: 0 <= i < |live| ==>
                live[i].queue == if live[i].closed then old(live[i].queue)
                                 else Offer(old(live[i].queue), live[i].capacity, item)
    {
      var k := 0;
      while k < |live|
        invariant 0 <= k <= |live|
        invariant forall i :: 0 <= i < k ==>
                    live[i].queue == if live[i].closed then old(live[i].queue)
                                     else Offer(old(live[i].queue), live[i].capacity, item)
        invariant forall i :: k <= i < |live| ==> live[i].queue == old(live[i].queue)
      {
        live[k].Receive(item);
        k := k + 1;
      }
    }

    /** Without interference, one publication reaches every referenced, open subscriber once and
        leaves every other one alone; the list loses exactly the dead entries. */
    method Publish(item: T)
      requires Valid()
      modifies this, subscribers`queue
      ensures Valid() && subscribers == Filter(old(subscribers), old(Referenced(subscribers)))
      ensures forall s :: s in old(subscribers) ==>
                s.queue == if s.references > 0 && !s.closed then Offer(old(s.queue), capacity, item)
                           else old(s.queue)
    {
      var live := Snapshot();
      Deliver(live, item);
    }
  }

  class TelemetryHub<T> {
    const history: RingBuffer<T>
    const fan: Broadcast<T>

    ghost predicate Valid()
      reads this, history, fan, fan.subscribers
    {
      history.Valid() && fan.Valid()
    }

    constructor (historyCapacity: nat)
      ensures Valid() && fresh(history) && fresh(fan)
      ensures history.log == [] && fan.subscribers == [] && fan.capacity == 64
    {
      history := new RingBuffer(historyCapacity);
      fan := new Broadcast(64);
    }

    method Publish(sample: T)
      requires Valid()
      modifies history, fan, fan.subscribers`queue
      ensures Valid()
      ensures history.log == old(history.log) + [sample]
      ensures fan.subscribers == Filter(old(fan.subscribers), old(Referenced(fan.subscribers)))
      ensures forall s :: s in old(fan.subscribers) ==>
                s.queue == if s.references > 0 && !s.closed then Offer(old(s.queue), fan.capacity, sample)
                           else old(s.queue)
    {
      history.Push(sample);
      fan.Publish(sample);
    }

    method Subscribe() returns (sub: Subscriber<T>)
      requires Valid()
      modifies fan
      ensures Valid() && fresh(sub) && fan.subscribers == old(fan.subscribers) + [sub]
      ensures sub.queue == [] && !sub.closed && sub.references == 1
    {
      sub := fan.Subscribe();
    }

    /** For every int the answer is the newest part of the log, no longer than asked for, than the
        ring, or than what there is. */
    method History(seconds: int) returns (out: seq<T>)
      requires Valid()
      ensures out == Suffix(history.log,
                            Min(if seconds < 0 then 0 else seconds, Min(history.cap, |history.log|)))
    {
      var capped: nat := if seconds < 0 then 0 else if seconds > history.cap then history.cap else seconds;
      out := history.LastN(capped);
    }
  }

  class EventBus<T> {
    const fan: Broadcast<T>

    ghost predicate Valid()
      reads this, fan, fan.subscribers
    {
      fan.Valid()
    }

    constructor ()
      ensures Valid() && fresh(fan) && fan.subscribers == [] && fan.capacity == 32
    {
      fan := new Broadcast(32);
    }

    method Publish(event: T)
      requires Valid()
      modifies fan, fan.subscribers`queue
      ensures Valid()
      ensures fan.subscribers == Filter(old(fan.subscribers), old(Referenced(fan.subscribers)))
      ensures forall s :: s in old(fan.subscribers) ==>
                s.queue == if s.references > 0 && !s.closed then Offer(old(s.queue), fan.capacity, event)
                           else old(s.queue)
    {
      fan.Publish(event);
    }

    method Subscribe() returns (sub: Subscriber<T>)
      requires Valid()
      modifies fan
      ensures Valid() && fresh(sub) && fan.subscribers == old(fan.subscribers) + [sub]
      ensures sub.queue == [] && !sub.closed && sub.references == 1
    {
      sub := fan.Subscribe();
    }
  }
}
